/**
 What an Almgren-Chriss schedule looks like: slices always sum to the total, never trade
 the wrong way, and in clock time follow the front-loaded closed-form trajectory.
 */
module ACShape {
  import opened Common
  import opened ACMath

  // ---- The ratio sinh(a * u) / sinh(a) ------------------------------------------------------

  lemma DivMono(x: real, y: real, d: real)
    requires d > 0.0
    ensures x < y ==> x / d < y / d
    ensures x / d - y / d == (x - y) / d
  {
    DivTimes(x, d);
    DivTimes(y, d);
    if x < y { MulLess(x / d, y / d, d); }
  }

  lemma DenPositive(f: Elementary, a: real)
    requires Lawful(f) && a > 0.0
    ensures 0.0 < 1.0 - f.exp(-2.0 * a)
  {
    assert ExpGrows(f.exp, -2.0 * a, 0.0);
  }

  lemma RatioStrict(f: Elementary, u: real, v: real, a: real)
    requires Lawful(f) && u < v
    ensures SinhRatio(f, u, a) < SinhRatio(f, v, a)
  {
    if a > 0.0 {
      MulLess(u - 1.0, v - 1.0, a);
      MulLess(u + 1.0, v + 1.0, a);
      assert ExpGrows(f.exp, a * (u - 1.0), a * (v - 1.0));
      assert ExpGrows(f.exp, -a * (v + 1.0), -a * (u + 1.0));
      DenPositive(f, a);
      DivMono(f.exp(a * (u - 1.0)) - f.exp(-a * (u + 1.0)),
              f.exp(a * (v - 1.0)) - f.exp(-a * (v + 1.0)), 1.0 - f.exp(-2.0 * a));
    }
  }

  /** The trajectory starts with everything held and ends with nothing. */
  lemma RatioEnds(f: Elementary, a: real)
    requires Lawful(f)
    ensures SinhRatio(f, 0.0, a) == 0.0 && SinhRatio(f, 1.0, a) == 1.0
  {
    if a > 0.0 {
      DenPositive(f, a);
      var den := 1.0 - f.exp(-2.0 * a);
      assert a * (0.0 - 1.0) == -a * (0.0 + 1.0);
      assert a * (1.0 - 1.0) == 0.0 && -a * (1.0 + 1.0) == -2.0 * a;
      DenPositive(f, a);
      DivSelf(den);
      var e := f.exp(-a * (0.0 + 1.0));
      assert (e - e) / den == 0.0;
    }
  }

  lemma RatioSign(f: Elementary, u: real, a: real)
    requires Lawful(f)
    ensures SinhRatio(f, u, a) >= 0.0 <==> u >= 0.0
    ensures u <= 1.0 ==> SinhRatio(f, u, a) <= 1.0
  {
    RatioEnds(f, a);
    if u < 0.0 { RatioStrict(f, u, 0.0, a); }
    if u > 0.0 { RatioStrict(f, 0.0, u, a); }
    if u < 1.0 { RatioStrict(f, u, 1.0, a); }
  }

  lemma RatioMonotone(f: Elementary, u: real, v: real, a: real)
    requires Lawful(f) && u <= v
    ensures SinhRatio(f, u, a) <= SinhRatio(f, v, a)
  {
    if u < v { RatioStrict(f, u, v, a); }
  }

  // ---- Slices ----------------------------------------------------------------------------------

  lemma {:induction false} SlicesPrefix(holdings: seq<real>, total: real, k: nat)
    requires k < |holdings| - 1
    ensures Sum(Slices(holdings, total)[..k]) == (holdings[0] - holdings[k]) * total
  {
    hide Sum, Slices;
    var s := Slices(holdings, total);
    SliceSize(holdings, total, k);
    if k == 0 {
      SumZero(s[..0]);
      assert (holdings[0] - holdings[0]) * total == 0.0;
    } else {
      var x, y := holdings[0] - holdings[k - 1], holdings[k - 1] - holdings[k];
      SliceSize(holdings, total, k - 1);
      SlicesPrefix(holdings, total, k - 1);
      assert s[..k] == s[..k - 1] + [s[k - 1]];
      SumAppend(s[..k - 1], s[k - 1]);
      Distribute(x, y, total);
    }
  }

  lemma SliceSize(holdings: seq<real>, total: real, k: nat)
    requires k < |holdings| - 1
    ensures |Slices(holdings, total)| == |holdings| - 1
    ensures k < |holdings| - 2 ==> Slices(holdings, total)[k] == (holdings[k] - holdings[k + 1]) * total
  {
  }

  lemma Distribute(x: real, y: real, t: real)
    ensures x * t + y * t == (x + y) * t
  {
  }

  /** Whatever the holdings, the slices sum exactly to the total. */
  lemma SlicesSumToTotal(holdings: seq<real>, total: real)
    requires |holdings| >= 2
    ensures |Slices(holdings, total)| == |holdings| - 1
    ensures Sum(Slices(holdings, total)) == total
  {
    var s := Slices(holdings, total);
    var n := |s|;
    SlicesPrefix(holdings, total, n - 1);
    assert s == s[..n - 1] + [s[n - 1]];
    SumAppend(s[..n - 1], s[n - 1]);
  }

  ghost predicate Accepted(fractions: seq<real>) {
    |fractions| >= 2 && Rising(fractions) && fractions[|fractions| - 1] <= 1.0 + TOLERANCE
  }

  lemma EarlySlices(f: Elementary, fractions: seq<real>, a: real, total: real)
    requires Lawful(f) && Rising(fractions) && |fractions| >= 2 && total >= 0.0
    ensures var s := Slices(Holdings(f, fractions, a), total);
            |s| == |fractions| - 1 && forall j :: 0 <= j < |fractions| - 2 ==> s[j] >= 0.0
  {
    hide Lawful, SinhRatio, Slices;
    var h := Holdings(f, fractions, a);
    SlicesSumToTotal(h, total);
    forall j | 0 <= j < |fractions| - 2 ensures Slices(h, total)[j] >= 0.0 {
      RatioMonotone(f, 1.0 - fractions[j + 1], 1.0 - fractions[j], a);
      SliceSign(h, total, j);
    }
  }

  lemma SliceSign(h: seq<real>, total: real, j: nat)
    requires j + 2 < |h| && h[j + 1] <= h[j] && total >= 0.0
    ensures Slices(h, total)[j] >= 0.0
  {
    ProductSign(h[j] - h[j + 1], total, (h[j] - h[j + 1]) * total);
  }

  // The share of the total sold before the last slice.
  function SoldEarly(f: Elementary, fractions: seq<real>, a: real): real
    requires Lawful(f) && |fractions| >= 2
  {
    SinhRatio(f, 1.0 - fractions[0], a) - SinhRatio(f, 1.0 - fractions[|fractions| - 2], a)
  }

  lemma TelescopedLast(h: seq<real>, total: real, sold: real)
    requires |h| >= 2 && sold == h[0] - h[|h| - 2]
    ensures |Slices(h, total)| == |h| - 1 && Slices(h, total)[|h| - 2] == (1.0 - sold) * total
  {
    assert total - sold * total == (1.0 - sold) * total;
  }

  lemma LastSlice(f: Elementary, fractions: seq<real>, a: real, total: real)
    requires Lawful(f) && |fractions| >= 2
    ensures var s := Slices(Holdings(f, fractions, a), total);
            |s| == |fractions| - 1 && s[|s| - 1] == (1.0 - SoldEarly(f, fractions, a)) * total
  {
    hide Lawful, SinhRatio, Slices;
    TelescopedLast(Holdings(f, fractions, a), total, SoldEarly(f, fractions, a));
  }

  lemma SoldEarlyBounds(f: Elementary, fractions: seq<real>, a: real)
    requires Lawful(f) && |fractions| >= 2 && fractions[0] >= 0.0
    ensures fractions[|fractions| - 2] <= 1.0 ==> SoldEarly(f, fractions, a) <= 1.0
    ensures fractions[0] == 0.0 ==> (SoldEarly(f, fractions, a) <= 1.0 <==> fractions[|fractions| - 2] <= 1.0)
  {
    hide SinhRatio, Lawful;
    RatioEnds(f, a);
    RatioSign(f, 1.0 - fractions[0], a);
    RatioSign(f, 1.0 - fractions[|fractions| - 2], a);
  }

  /** The validation bounds each fraction by the next and the last by 1 and a tolerance. No
      slice then trades the wrong way exactly when the slices before the last sell at most
      the total. That is so whenever the last fraction but one is at most 1, and for
      fractions that start at 0 only then. */
  lemma NonNegativeExactly(f: Elementary, fractions: seq<real>, a: real, total: real)
    requires Lawful(f) && Accepted(fractions) && total > 0.0
    ensures NonNegative(Slices(Holdings(f, fractions, a), total)) <==> SoldEarly(f, fractions, a) <= 1.0
    ensures fractions[|fractions| - 2] <= 1.0 ==> SoldEarly(f, fractions, a) <= 1.0
    ensures fractions[0] == 0.0 ==> (SoldEarly(f, fractions, a) <= 1.0 <==> fractions[|fractions| - 2] <= 1.0)
  {
    hide SinhRatio, Holdings, Slices, Lawful, SoldEarly;
    SoldEarlyBounds(f, fractions, a);
    EarlySlices(f, fractions, a, total);
    LastSlice(f, fractions, a, total);
    SignOfProduct(1.0 - SoldEarly(f, fractions, a), total);
  }

  /** With the tolerance used up early, the last slice sells back: fractions 0, 1 + 1e-9,
      1 + 1e-9 are accepted and end in a negative slice. */
  lemma ToleranceReverses(f: Elementary)
    requires Lawful(f)
    ensures var fractions := [0.0, 1.0 + TOLERANCE, 1.0 + TOLERANCE];
            Accepted(fractions) && Slices(Holdings(f, fractions, 0.0), 1.0)[1] < 0.0
  {
  }

  // ---- Any accepted schedule -----------------------------------------------------------------------

  predicate ValidParams(p: Params) {
    p.duration > 0.0 && p.intervals > 0 && p.riskAversion >= 0.0 && p.volatility >= 0.0 && EtaTilde(p) > 0.0
  }

  // Fractions that rise from 0 to 1.
  ghost predicate FullRise(fractions: seq<real>) {
    |fractions| >= 2 && Rising(fractions) && fractions[0] == 0.0 && fractions[|fractions| - 1] == 1.0
  }

  // Non-negative slices that sum to the total, none below the minimum unless it is alone.
  ghost predicate SoundSchedule(schedule: seq<real>, p: Params) {
    && NonNegative(schedule) && Sum(schedule) == p.total
    && (p.total > 0.0 ==> schedule != [])
    && (p.minSize.Some? && |schedule| > 1 ==> forall k :: 0 <= k < |schedule| ==> schedule[k] >= p.minSize.value)
  }

  lemma SlicesSound(f: Elementary, fractions: seq<real>, a: real, total: real)
    requires Lawful(f) && FullRise(fractions) && total >= 0.0
    ensures NonNegative(Slices(Holdings(f, fractions, a), total))
    ensures Slices(Holdings(f, fractions, a), total) != []
    ensures Sum(Slices(Holdings(f, fractions, a), total)) == total
  {
    SlicesSumToTotal(Holdings(f, fractions, a), total);
    if total > 0.0 {
      NonNegativeExactly(f, fractions, a, total);
    } else {
      EarlySlices(f, fractions, a, total);
    }
  }

  // `merged` is `sizes` with runs of neighbours added together.
  ghost predicate Coarsening(sizes: seq<real>, merged: seq<real>) {
    exists cuts :: Coarsens(sizes, merged, cuts)
  }

  lemma Unmerged(sizes: seq<real>)
    ensures Coarsening(sizes, sizes)
  {
    var cuts: seq<nat> := seq(|sizes| + 1, i requires 0 <= i <= |sizes| => i);
    forall k | 0 <= k < |sizes| ensures IsGroup(sizes, sizes[k], cuts[k], cuts[k + 1]) {
      assert sizes[k..k + 1] == [] + [sizes[k]];
      SumAppend([], sizes[k]);
    }
    assert Coarsens(sizes, sizes, cuts);
  }

  lemma MergedSound(sizes: seq<real>, p: Params)
    requires NonNegative(sizes) && Sum(sizes) == p.total && (p.total > 0.0 ==> sizes != [])
    ensures SoundSchedule(Merge(sizes, p.minSize), p)
    ensures p.total > 0.0 ==> Coarsening(sizes, Merge(sizes, p.minSize))
  {
    if p.minSize.Some? && p.minSize.value > 0.0 {
      var cuts, reach := MergeSound(sizes, p.minSize.value);
    } else {
      Unmerged(sizes);
    }
  }

  lemma ClockFractionsRise(n: int)
    requires n > 0
    ensures FullRise(ClockFractions(n))
  {
    var fs := ClockFractions(n);
    forall j | 0 <= j < |fs| - 1 ensures 0.0 <= fs[j] <= fs[j + 1] {
      DivMono(j as real, (j + 1) as real, n as real);
      if j > 0 { DivMono(0.0, j as real, n as real); }
    }
    DivSelf(n as real);
    assert 0.0 / n as real == 0.0;
  }

  function UsedFractions(p: Params, volumeFractions: Option<seq<real>>): seq<real>
    requires p.intervals > 0
  {
    if volumeFractions.None? then ClockFractions(p.intervals) else volumeFractions.value
  }

  /** Building succeeds exactly on valid parameters and fractions. In clock time, and for
      volume fractions that rise from 0 to 1, the schedule is sound. */
  lemma ScheduleSound(f: Elementary, p: Params, volumeFractions: Option<seq<real>>)
    requires Lawful(f) && p.total >= 0.0
    requires volumeFractions.Some? ==> FullRise(volumeFractions.value)
    ensures BuildSchedule(f, p, volumeFractions).Success? <==> ValidParams(p)
    ensures ValidParams(p) ==> SoundSchedule(BuildSchedule(f, p, volumeFractions).value, p)
    ensures ValidParams(p) && p.total > 0.0 ==>
              Coarsening(TradeSizes(f, p, UsedFractions(p, volumeFractions)),
                         BuildSchedule(f, p, volumeFractions).value)
  {
    hide SoundSchedule, Merge, Slices, Holdings, Urgency, Coarsening;
    if ValidParams(p) {
      if volumeFractions.None? { ClockFractionsRise(p.intervals); }
      var fractions := UsedFractions(p, volumeFractions);
      SlicesSound(f, fractions, Urgency(f, p), p.total);
      MergedSound(TradeSizes(f, p, fractions), p);
      assert BuildSchedule(f, p, volumeFractions) == Success(Merge(TradeSizes(f, p, fractions), p.minSize));
    }
  }

  // ---- The clock-time shape ------------------------------------------------------------------------

  function Pow(r: real, n: nat): real { if n == 0 then 1.0 else r * Pow(r, n - 1) }

  lemma {:induction false} PowAdd(r: real, m: nat, n: nat)
    ensures Pow(r, m + n) == Pow(r, m) * Pow(r, n)
  {
    if m > 0 {
      PowAdd(r, m - 1, n);
      assert r * (Pow(r, m - 1) * Pow(r, n)) == r * Pow(r, m - 1) * Pow(r, n);
    }
  }

  lemma {:induction false} PowPositive(r: real, n: nat)
    requires 0.0 < r
    ensures Pow(r, n) > 0.0
  {
    if n > 0 {
      PowPositive(r, n - 1);
      MulLess(0.0, r, Pow(r, n - 1));
    }
  }

  lemma ShrinkBy(r: real, p: real, q: real)
    requires 0.0 < r < 1.0 && p > 0.0 && q == r * p
    ensures 0.0 < q < p
  {
    var d := 1.0 - r;
    assert d * p == p - q;
    assert d * p > 0.0;
  }

  lemma PowStep(r: real, n: nat)
    requires 0.0 < r < 1.0
    ensures 0.0 < Pow(r, n + 1) < Pow(r, n)
  {
    PowPositive(r, n);
    ShrinkBy(r, Pow(r, n), Pow(r, n + 1));
  }

  lemma {:induction false} PowShrinks(r: real, m: nat, n: nat)
    requires 0.0 < r < 1.0 && m <= n
    ensures 0.0 < Pow(r, n) <= Pow(r, m)
    ensures m < n ==> Pow(r, n) < Pow(r, m)
    decreases n - m
  {
    PowPositive(r, n);
    if m < n {
      PowStep(r, m);
      PowShrinks(r, m + 1, n);
    }
  }

  lemma {:induction false} ExpIsPow(f: Elementary, x: real, n: nat, y: real)
    requires Lawful(f) && y == n as real * x
    ensures f.exp(y) == Pow(f.exp(x), n)
  {
    if n > 0 {
      var e := f.exp(x);
      var rest := y - x;
      assert rest == (n - 1) as real * x;
      ExpIsPow(f, x, n - 1, rest);
      assert ExpAdds(f.exp, x, rest);
      assert x + rest == y;
      SameProduct(e, f.exp(rest), Pow(e, n - 1), f.exp(y), Pow(e, n));
    } else {
      assert y == 0.0;
    }
  }

  lemma SameProduct(e: real, u: real, v: real, p: real, q: real)
    requires u == v && p == e * u && q == e * v
    ensures p == q
  {
  }

  lemma ExpBelowOne(f: Elementary, x: real)
    requires Lawful(f) && x < 0.0
    ensures 0.0 < f.exp(x) < 1.0
  {
    assert ExpGrows(f.exp, x, 0.0);
    assert ExpGrows(f.exp, x - 1.0, x);
    assert x / 2.0 + x / 2.0 == x;
    assert ExpAdds(f.exp, x / 2.0, x / 2.0);
    assert ExpAdds(f.exp, x, -x);
  }

  // The fraction still held after j of n equal intervals, for decay ratio r per interval.
  function Held(r: real, n: nat, j: nat): real
    requires 0.0 < r < 1.0 && n > 0 && j <= n
  {
    assert Pow(r, 2 * n) < 1.0 by { PowShrinks(r, 0, 2 * n); assert Pow(r, 0) == 1.0; }
    (Pow(r, j) - Pow(r, 2 * n - j)) / (1.0 - Pow(r, 2 * n))
  }

  lemma Product(x: real, y: real, z: real)
    ensures (x * y) * z == x * (y * z) == y * (x * z)
  {
  }

  // The exponents of the stable ratio at clock time j of n, in whole steps of -kappa * tau.
  lemma Exponents(k: real, n: real, j: real, q: real, a: real)
    requires a == n * k && q * n == j
    ensures a * ((1.0 - q) - 1.0) == j * -k
    ensures -a * ((1.0 - q) + 1.0) == (2.0 * n - j) * -k
    ensures -2.0 * a == (2.0 * n) * -k
  {
    Product(n, k, q);
    Product(q, n, k);
    assert a * q == j * k;
    assert a * ((1.0 - q) - 1.0) == -(a * q);
    assert -a * ((1.0 - q) + 1.0) == a * q - 2.0 * a;
    assert (2.0 * n - j) * -k == j * k - 2.0 * (n * k);
  }

  /** With decay ratio r = exp(-kappa * tau) the code's stable ratio is the textbook one. */
  lemma ClockHolding(f: Elementary, kappa: real, tau: real, n: nat, j: nat, a: real, k: real)
    requires a == kappa * (n as real * tau) && k == kappa * tau
    requires Lawful(f) && kappa > 0.0 && tau > 0.0 && n > 0 && j <= n
    ensures 0.0 < f.exp(-k) < 1.0
    ensures SinhRatio(f, 1.0 - j as real / n as real, a)
            == Held(f.exp(-k), n, j)
  {
    var q := j as real / n as real;
    var x := -k;
    var r := f.exp(x);
    var atJ, atRest, atEnd := j as real * x, (2 * n - j) as real * x, (2 * n) as real * x;
    MulLess(0.0, kappa, tau);
    ExpBelowOne(f, x);
    ExpIsPow(f, x, j, atJ);
    ExpIsPow(f, x, 2 * n - j, atRest);
    ExpIsPow(f, x, 2 * n, atEnd);
    Product(n as real, kappa, tau);
    Product(kappa, n as real, tau);
    DivTimes(j as real, n as real);
    Exponents(k, n as real, j as real, q, a);
    MulLess(0.0, n as real, k);
    PowShrinks(r, 0, 2 * n);
    assert Pow(r, 0) == 1.0;
    hide Pow, Lawful, ExpAdds, ExpGrows;
    RatioUnfolds(f, 1.0 - q, a, atJ, atRest, atEnd);
  }

  lemma RatioUnfolds(f: Elementary, u: real, a: real, x: real, y: real, z: real)
    requires Lawful(f) && a > 0.0
    requires a * (u - 1.0) == x && -a * (u + 1.0) == y && -2.0 * a == z && f.exp(z) < 1.0
    ensures SinhRatio(f, u, a) == (f.exp(x) - f.exp(y)) / (1.0 - f.exp(z))
  {
  }

  // ---- The trajectory of holdings ------------------------------------------------------------------

  lemma RecurrenceStep(r: real, s: real, d: real, p: real, p1: real, p2: real, q: real, q1: real, q2: real)
    requires r > 0.0 && d > 0.0 && s == 1.0 / r
    requires p1 == r * p && p2 == r * p1 && q1 == r * q && q2 == r * q1
    ensures (p - q2) / d + (p2 - q) / d == (r + s) * ((p1 - q1) / d)
  {
    DivTimes(1.0, r);
    SumOver(p - q2, p2 - q, d);
    TimesOver(r + s, p1 - q1, d);
    Recurrence(r, s, p, q, p - q, p1 - q1, p2 - q2);
  }

  lemma Recurrence(r: real, s: real, p: real, q: real, w: real, w1: real, w2: real)
    requires s * r == 1.0 && w1 == r * w && w2 == r * w1
    ensures (r + s) * w1 == w2 + w
  {
    Product(s, r, w);
    assert (r + s) * w1 == r * w1 + s * w1;
  }

  lemma SumOver(x: real, y: real, d: real)
    requires d > 0.0
    ensures x / d + y / d == (x + y) / d
  {
  }

  lemma TimesOver(k: real, x: real, d: real)
    requires d > 0.0
    ensures k * (x / d) == (k * x) / d
  {
    var q := x / d;
    DivTimes(x, d);
    Product(k, q, d);
    assert (k * q) * d == k * x;
    QuotientIs(k * q, d, k * x);
  }

  lemma QuotientIs(y: real, d: real, z: real)
    requires d > 0.0 && y * d == z
    ensures y == z / d
  {
    DivTimes(z, d);
    MulLess(y, z / d, d);
    MulLess(z / d, y, d);
  }

  /** The closed-form holdings solve x[j-1] + x[j+1] == (r + 1/r) * x[j] with x[0] = 1 and
      x[n] = 0. */
  lemma HeldRecurrence(r: real, n: nat, j: nat)
    requires 0.0 < r < 1.0 && 0 < j < n
    ensures Held(r, n, j - 1) + Held(r, n, j + 1) == (r + 1.0 / r) * Held(r, n, j)
  {
    hide Pow;
    PowNext(r, j - 1);
    PowNext(r, j);
    PowNext(r, 2 * n - j - 1);
    PowNext(r, 2 * n - j);
    HeldBounds(r, n, j);
    RecurrenceStep(r, 1.0 / r, 1.0 - Pow(r, 2 * n),
                   Pow(r, j - 1), Pow(r, j), Pow(r, j + 1),
                   Pow(r, 2 * n - j - 1), Pow(r, 2 * n - j), Pow(r, 2 * n - j + 1));
  }

  lemma PowNext(r: real, n: nat)
    ensures Pow(r, n + 1) == r * Pow(r, n)
  {
  }

  lemma HeldBounds(r: real, n: nat, j: nat)
    requires 0.0 < r < 1.0 && n > 0 && j <= n
    ensures 0.0 < 1.0 - Pow(r, 2 * n)
    ensures Held(r, n, 0) == 1.0 && Held(r, n, n) == 0.0
    ensures j < n ==> Held(r, n, j) > 0.0
  {
    PowShrinks(r, 0, 2 * n);
    var d := 1.0 - Pow(r, 2 * n);
    DivSelf(d);
    assert 0.0 / d == 0.0;
    if j < n {
      PowShrinks(r, j, 2 * n - j);
      DivMono(0.0, Pow(r, j) - Pow(r, 2 * n - j), d);
    }
  }

  lemma RatioAboveTwo(r: real, s: real)
    requires 0.0 < r < 1.0 && s == 1.0 / r
    ensures r + s > 2.0
  {
    DivTimes(1.0, r);
    var e, g := 1.0 - r, r + s - 2.0;
    var square := e * e;
    ProductSign(e, e, square);
    assert square == e - r * e == g * r;
    if g <= 0.0 { MulLess(g, 0.0, r); }
  }

  lemma Convex(k: real, x: real, y: real, z: real)
    requires k > 2.0 && y > 0.0 && x + z == k * y
    ensures x - y > y - z
  {
    MulLess(2.0, k, y);
  }

  // The share traded in interval j.
  function Share(r: real, n: nat, j: nat): real
    requires 0.0 < r < 1.0 && j < n
  {
    Held(r, n, j) - Held(r, n, j + 1)
  }

  /** Every interval trades something, and strictly less than the one before. */
  lemma SharesFall(r: real, n: nat, j: nat)
    requires 0.0 < r < 1.0 && j < n
    ensures Share(r, n, j) > 0.0
    ensures j + 1 < n ==> Share(r, n, j + 1) < Share(r, n, j)
    decreases n - j
  {
    HeldBounds(r, n, j);
    if j + 1 < n {
      HeldBounds(r, n, j + 1);
      HeldRecurrence(r, n, j + 1);
      RatioAboveTwo(r, 1.0 / r);
      Convex(r + 1.0 / r, Held(r, n, j), Held(r, n, j + 1), Held(r, n, j + 2));
      SharesFall(r, n, j + 1);
    }
  }

  // ---- Front-loaded sequences run ahead of an even pace ----------------------------------------------

  ghost predicate Falling(s: seq<real>) { forall i, j :: 0 <= i < j < |s| ==> s[i] >= s[j] }

  // The first k slices make at least k/n of the total.
  ghost predicate Ahead(s: seq<real>, k: nat, total: real)
    requires k <= |s|
  {
    Sum(s[..k]) * |s| as real >= k as real * total
  }

  /** After k of n slices a falling sequence has done at least k/n of its sum. */
  lemma AheadOfPace(s: seq<real>, k: nat)
    requires Falling(s) && k <= |s|
    ensures Ahead(s, k, Sum(s))
  {
    hide Sum, Falling;
    HeadShare(s, k, k as real, |s| as real, Sum(s[..k]) * |s| as real, k as real * Sum(s));
  }

  lemma HeadShare(s: seq<real>, k: nat, done: real, n: real, left: real, right: real)
    requires Falling(s) && k <= |s| && done == k as real && n == |s| as real
    requires left == Sum(s[..k]) * n && right == done * Sum(s)
    ensures left >= right
  {
    hide Sum, Falling;
    if k == 0 {
      SumZero(s[..0]);
    } else {
      var head, tail, sum, m := Sum(s[..k]), Sum(s[k..]), Sum(s), s[k - 1];
      var low, high := done * m, (n - done) * m;
      SplitAt(s, k, m, done, n - done, low, high);
      PaceArithmetic(head, tail, done, n - done, m, n, sum, low, high, left, right);
    }
  }

  lemma SplitAt(s: seq<real>, k: nat, m: real, done: real, rest: real, low: real, high: real)
    requires low == done * m && high == rest * m
    requires Falling(s) && 0 < k <= |s| && m == s[k - 1]
    requires done == k as real && rest == (|s| - k) as real
    ensures Sum(s[..k]) >= low && Sum(s[k..]) <= high
    ensures Sum(s) == Sum(s[..k]) + Sum(s[k..])
  {
    assert s == s[..k] + s[k..];
    SumConcat(s[..k], s[k..]);
    forall i | 0 <= i < k ensures s[..k][i] >= m { assert i < k - 1 ==> s[i] >= s[k - 1]; }
    forall i | 0 <= i < |s| - k ensures s[k..][i] <= m { assert s[k - 1] >= s[k + i]; }
    hide Falling, Sum;
    SumAtLeast(s[..k], m, done);
    SumAtMost(s[k..], m, rest);
  }

  lemma PaceArithmetic(head: real, tail: real, k: real, rest: real, m: real, n: real, sum: real,
                       low: real, high: real, left: real, right: real)
    requires k > 0.0 && rest >= 0.0 && low == k * m && high == rest * m && head >= low && tail <= high
    requires n == k + rest && sum == head + tail && left == head * n && right == k * sum
    ensures left >= right
  {
    var gap, slack := head - k * m, rest * m - tail;
    ProductSign(gap, rest, gap * rest);
    ProductSign(k, slack, k * slack);
    Pace(head, tail, k, rest, m, gap * rest, k * slack);
  }

  lemma Pace(head: real, tail: real, k: real, rest: real, m: real, x: real, y: real)
    requires x == (head - k * m) * rest && y == k * (rest * m - tail) && x >= 0.0 && y >= 0.0
    ensures head * (k + rest) >= k * (head + tail)
  {
    Product(k, m, rest);
    Product(k, rest, m);
    assert x + y == head * rest - k * tail;
  }

  // ---- The clock-time schedule ------------------------------------------------------------------------

  function DecayRate(f: Elementary, p: Params): real
    requires p.intervals > 0 && EtaTilde(p) > 0.0
  {
    Kappa(f, p) * Tau(p)
  }

  // Decay per interval, r = exp(-kappa * tau).
  function Decay(f: Elementary, p: Params): real
    requires p.intervals > 0 && EtaTilde(p) > 0.0
  {
    f.exp(-DecayRate(f, p))
  }

  lemma KappaPositive(f: Elementary, p: Params)
    requires Lawful(f) && ValidParams(p)
    ensures Kappa(f, p) >= 0.0
    ensures Kappa(f, p) > 0.0 <==> p.riskAversion > 0.0 && p.volatility > 0.0
  {
    var v := p.volatility * p.volatility;
    var q := p.riskAversion * v;
    var x := RiskRatio(p);
    ProductSign(p.volatility, p.volatility, v);
    ProductSign(p.riskAversion, v, q);
    DivTimes(q, EtaTilde(p));
    SignOfProduct(x, EtaTilde(p));
    SignOfProduct(-x, EtaTilde(p));
    var k := f.sqrt(x);
    assert IsRoot(f.sqrt, x);
    ProductSign(k, k, x);
  }

  lemma ProductSign(x: real, y: real, z: real)
    requires x >= 0.0 && y >= 0.0 && z == x * y
    ensures z >= 0.0 && (z > 0.0 <==> x > 0.0 && y > 0.0)
  {
    if y > 0.0 { MulLess(0.0, x, y); }
  }

  lemma ClockRatio(f: Elementary, p: Params, j: nat)
    requires Lawful(f) && ValidParams(p) && Kappa(f, p) > 0.0 && j <= p.intervals
    ensures 0.0 < Decay(f, p) < 1.0
    ensures |Holdings(f, ClockFractions(p.intervals), Urgency(f, p))| == p.intervals + 1
    ensures Holdings(f, ClockFractions(p.intervals), Urgency(f, p))[j] == Held(Decay(f, p), p.intervals, j)
  {
    var n := p.intervals;
    var tau := Tau(p);
    DivTimes(p.duration, n as real);
    SignOfProduct(tau, n as real);
    assert tau != 0.0;
    assert ClockFractions(n)[j] == j as real / n as real;
    hide Pow, Held, Kappa, SinhRatio, Lawful, EtaTilde, ClockFractions;
    ClockHolding(f, Kappa(f, p), tau, n, j, Urgency(f, p), DecayRate(f, p));
  }

  // The textbook size of slice j.
  function ClosedSlice(r: real, n: nat, j: nat, total: real): real
    requires 0.0 < r < 1.0 && j < n
  {
    Share(r, n, j) * total
  }

  lemma ClockSlice(f: Elementary, p: Params, j: nat)
    requires Lawful(f) && ValidParams(p) && Kappa(f, p) > 0.0 && j < p.intervals
    ensures 0.0 < Decay(f, p) < 1.0
    ensures |TradeSizes(f, p, ClockFractions(p.intervals))| == p.intervals
    ensures TradeSizes(f, p, ClockFractions(p.intervals))[j] == ClosedSlice(Decay(f, p), p.intervals, j, p.total)
  {
    var n := p.intervals;
    var h := Holdings(f, ClockFractions(n), Urgency(f, p));
    var r := Decay(f, p);
    hide Decay, Urgency, SinhRatio, Slices, Lawful, EtaTilde, Kappa, Pow, Holdings, ClockFractions;
    ClockRatio(f, p, 0);
    ClockRatio(f, p, j);
    ClockRatio(f, p, j + 1);
    HeldBounds(r, n, n);
    hide Held, ClosedSlice;
    SliceAt(h, p.total, r, n, j);
  }

  lemma SliceAt(h: seq<real>, total: real, r: real, n: nat, j: nat)
    requires 0.0 < r < 1.0 && |h| == n + 1 && j < n && h[0] == 1.0
    requires h[j] == Held(r, n, j) && h[j + 1] == Held(r, n, j + 1) && Held(r, n, n) == 0.0
    ensures |Slices(h, total)| == n && Slices(h, total)[j] == ClosedSlice(r, n, j, total)
  {
    hide Held;
    var x := h[j];
    if j == n - 1 { assert total - (1.0 - x) * total == x * total; }
  }

  ghost predicate ClosedForm(s: seq<real>, r: real, n: nat, total: real)
    requires 0.0 < r < 1.0
  {
    |s| == n && forall j :: 0 <= j < n ==> s[j] == ClosedSlice(r, n, j, total)
  }

  lemma ClosedFormFalls(s: seq<real>, r: real, n: nat, total: real)
    requires 0.0 < r < 1.0 && total > 0.0 && ClosedForm(s, r, n, total)
    ensures forall j :: 0 <= j < |s| ==> s[j] > 0.0
    ensures forall i, j :: 0 <= i < j < |s| ==> s[i] > s[j]
  {
    forall j | 0 <= j < n ensures s[j] > 0.0 && (j < n - 1 ==> s[j] > s[j + 1]) {
      SharesFall(r, n, j);
      hide Share;
      MulLess(0.0, Share(r, n, j), total);
      if j < n - 1 { MulLess(Share(r, n, j + 1), Share(r, n, j), total); }
    }
    StrictlyFalls(s);
  }

  /** A risk-averse schedule in clock time follows the closed form: every slice is positive,
      each is smaller than the one before, and at every point it is at least as far along
      as an even schedule. */
  lemma ClockShape(f: Elementary, p: Params)
    requires Lawful(f) && ValidParams(p) && p.total > 0.0 && p.minSize.None?
    requires p.riskAversion > 0.0 && p.volatility > 0.0
    ensures BuildSchedule(f, p, None).Success? && 0.0 < Decay(f, p) < 1.0
    ensures var s := BuildSchedule(f, p, None).value;
            && ClosedForm(s, Decay(f, p), p.intervals, p.total)
            && (forall j :: 0 <= j < |s| ==> s[j] > 0.0)
            && (forall i, j :: 0 <= i < j < |s| ==> s[i] > s[j])
            && (forall k :: 0 <= k <= |s| ==> Ahead(s, k, p.total))
  {
    ClockForm(f, p);
    var s := BuildSchedule(f, p, None).value;
    hide BuildSchedule, Decay, EtaTilde, Sum, ClosedForm;
    ClosedFormFalls(s, Decay(f, p), p.intervals, p.total);
    forall k | 0 <= k <= |s| ensures Ahead(s, k, p.total) {
      AheadOfPace(s, k);
    }
  }

  lemma ClockForm(f: Elementary, p: Params)
    requires Lawful(f) && ValidParams(p) && p.minSize.None?
    requires p.riskAversion > 0.0 && p.volatility > 0.0
    ensures BuildSchedule(f, p, None).Success? && 0.0 < Decay(f, p) < 1.0
    ensures var s := BuildSchedule(f, p, None).value;
            ClosedForm(s, Decay(f, p), p.intervals, p.total) && Sum(s) == p.total
  {
    var n := p.intervals;
    var s := TradeSizes(f, p, ClockFractions(n));
    assert BuildSchedule(f, p, None) == Success(s);
    SlicesSumToTotal(Holdings(f, ClockFractions(n), Urgency(f, p)), p.total);
    hide TradeSizes, Decay, ClockFractions, EtaTilde, Sum, ClosedSlice, Kappa, BuildSchedule, Lawful;
    KappaPositive(f, p);
    ClockSlice(f, p, 0);
    forall j | 0 <= j < n ensures s[j] == ClosedSlice(Decay(f, p), n, j, p.total) {
      ClockSlice(f, p, j);
    }
  }

  lemma {:induction false} StrictlyFalls(s: seq<real>)
    requires forall j :: 0 <= j < |s| - 1 ==> s[j] > s[j + 1]
    ensures forall i, j :: 0 <= i < j < |s| ==> s[i] > s[j]
  {
    if |s| > 1 {
      StrictlyFalls(s[..|s| - 1]);
      forall i | 0 <= i < |s| - 1 ensures s[i] > s[|s| - 1] {
        assert i < |s| - 2 ==> s[..|s| - 1][i] > s[..|s| - 1][|s| - 2];
      }
    }
  }

  // One of n equal parts of the total.
  ghost predicate EqualPart(x: real, n: int, total: real) { x * n as real == total }

  /** Without risk (no aversion, or no volatility) every slice is the same. */
  lemma ZeroRiskIsEven(f: Elementary, p: Params)
    requires Lawful(f) && ValidParams(p) && p.minSize.None?
    requires p.riskAversion == 0.0 || p.volatility == 0.0
    ensures BuildSchedule(f, p, None).Success?
    ensures var s := BuildSchedule(f, p, None).value;
            |s| == p.intervals && forall j :: 0 <= j < |s| ==> EqualPart(s[j], p.intervals, p.total)
  {
    var s := TradeSizes(f, p, ClockFractions(p.intervals));
    assert BuildSchedule(f, p, None) == Success(s);
    KappaPositive(f, p);
    assert Urgency(f, p) == 0.0;
    hide TradeSizes, BuildSchedule, Urgency, Kappa, EtaTilde, EqualPart, Lawful;
    EvenTrade(f, p, 0);
    forall j | 0 <= j < p.intervals ensures EqualPart(s[j], p.intervals, p.total) {
      EvenTrade(f, p, j);
    }
  }

  lemma EvenTrade(f: Elementary, p: Params, j: nat)
    requires Lawful(f) && ValidParams(p) && Urgency(f, p) == 0.0 && j < p.intervals
    ensures |TradeSizes(f, p, ClockFractions(p.intervals))| == p.intervals
    ensures EqualPart(TradeSizes(f, p, ClockFractions(p.intervals))[j], p.intervals, p.total)
  {
    var n := p.intervals;
    var h := Holdings(f, ClockFractions(n), 0.0);
    assert |h| == n + 1;
    assert |TradeSizes(f, p, ClockFractions(n))| == n;
    hide Holdings, Lawful, EtaTilde, ClockFractions, Kappa, Slices;
    EvenHolding(f, n, 0);
    EvenHolding(f, n, j);
    EvenHolding(f, n, j + 1);
    EvenSlice(h, p.total, n, j);
  }

  lemma EvenHolding(f: Elementary, n: int, j: nat)
    requires Lawful(f) && n > 0 && j <= n
    ensures (1.0 - Holdings(f, ClockFractions(n), 0.0)[j]) * n as real == j as real
  {
    DivTimes(j as real, n as real);
  }

  lemma EvenSlice(h: seq<real>, total: real, n: nat, j: nat)
    requires |h| == n + 1 && j < n
    requires (1.0 - h[0]) * n as real == 0.0
    requires (1.0 - h[j]) * n as real == j as real && (1.0 - h[j + 1]) * n as real == (j + 1) as real
    ensures EqualPart(Slices(h, total)[j], n, total)
  {
    hide Slices, EqualPart;
    var scale, step := n as real, h[j] - h[j + 1];
    EvenStep(1.0 - h[0], 0.0, scale);
    if j == n - 1 { EvenStep(1.0 - h[n], 1.0, scale); }
    EvenSliceAt(h, total, j, step);
    EvenProduct(h[j], h[j + 1], Slices(h, total)[j], total, n, j);
  }

  lemma EvenStep(x: real, y: real, scale: real)
    requires scale > 0.0 && x * scale == y * scale
    ensures x == y
  {
    MulLess(x, y, scale);
    MulLess(y, x, scale);
  }

  lemma EvenSliceAt(h: seq<real>, total: real, j: nat, step: real)
    requires j < |h| - 1 && step == h[j] - h[j + 1] && h[0] == 1.0 && (j == |h| - 2 ==> h[j + 1] == 0.0)
    ensures |Slices(h, total)| == |h| - 1 && Slices(h, total)[j] == step * total
  {
    if j == |h| - 2 { assert total - (1.0 - step) * total == step * total; }
  }

  lemma EvenProduct(x: real, y: real, part: real, total: real, n: nat, j: nat)
    requires (1.0 - x) * n as real == j as real && (1.0 - y) * n as real == (j + 1) as real
    requires part == (x - y) * total
    ensures EqualPart(part, n, total)
  {
    var step := x - y;
    assert step * n as real == 1.0;
    Product(step, total, n as real);
    assert (step * total) * n as real == total * (step * n as real);
  }
}
