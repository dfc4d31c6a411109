/**
 What the schedule's numbers are, from the parameters: the urgency, when a schedule can be
 built, the closed form in clock time, and slices that follow the volumes in volume time.
 */
module ACMeaning {
  import opened Common
  import opened ACMath
  import opened ACShape
  import opened ACExecution
  import opened ACExecutionRuns

  // ---- The urgency -------------------------------------------------------------------------------

  // The temporary impact less half the permanent one an interval adds.
  function ImpactLeft(p: Params): real
    requires p.intervals > 0
  {
    p.eta - 0.5 * p.gamma * (p.duration / p.intervals as real)
  }

  // kappa^2 * (eta - 0.5 * gamma * T / n) == lambda * sigma^2.
  ghost predicate Urgent(p: Params, kappa: real)
    requires p.intervals > 0
  {
    kappa >= 0.0 && (kappa * kappa) * ImpactLeft(p) == p.riskAversion * (p.volatility * p.volatility)
  }

  /** A schedule is built exactly for a positive horizon and number of intervals, a
      non-negative aversion and volatility, an impact that is left positive, and fractions
      that are not empty, rise from 0 or above and end at 1 or below, but for 1e-9. */
  lemma BuildsExactly(f: Elementary, p: Params, fractions: Option<seq<real>>)
    requires Lawful(f)
    ensures BuildSchedule(f, p, fractions).Success? <==>
              && p.duration > 0.0 && p.intervals > 0 && p.riskAversion >= 0.0 && p.volatility >= 0.0
              && ImpactLeft(p) > 0.0
              && (fractions.Some? ==>
                    var v := fractions.value;
                    && v != [] && v[|v| - 1] <= 1.000000001
                    && forall j :: 0 <= j < |v| - 1 ==> 0.0 <= v[j] <= v[j + 1])
  {
    if p.intervals > 0 { assert ImpactLeft(p) == EtaTilde(p); }
    hide TradeSizes, Merge, ClockFractions;
  }

  /** An executor for a positive total is created exactly for opening a position in 1 to 200
      slices at least a second apart, with parameters a schedule can be built from. */
  lemma CreatesExactly(f: Elementary, cfg: Config)
    requires Lawful(f) && cfg.params.total > 0.0
    ensures var p := cfg.params;
            Create(f, cfg).Success? <==>
              && cfg.opening && 1 <= p.intervals <= 200 && p.duration >= p.intervals as real
              && p.riskAversion >= 0.0 && p.volatility >= 0.0 && ImpactLeft(p) > 0.0
  {
    var p := cfg.params;
    CreateSound(f, cfg);
    hide Create, SoundState;
    if p.intervals >= 1 {
      assert ImpactLeft(p) == EtaTilde(p);
      SecondsApart(p.duration, p.intervals as real);
    }
  }

  lemma SecondsApart(duration: real, n: real)
    requires n >= 1.0
    ensures duration / n >= 1.0 <==> duration >= n
  {
    DivTimes(duration, n);
    if duration / n >= 1.0 { MulLess(1.0, duration / n, n); } else { MulLess(duration / n, 1.0, n); }
  }

  /** The urgency is the non-negative root of lambda * sigma^2 over the impact, and nothing
      else is: kappa is determined by the parameters. */
  lemma KappaExactly(f: Elementary, p: Params, kappa: real)
    requires Lawful(f) && ValidParams(p)
    ensures Urgent(p, kappa) <==> kappa == Kappa(f, p)
  {
    var q, eta := p.riskAversion * (p.volatility * p.volatility), EtaTilde(p);
    var k, x := Kappa(f, p), RiskRatio(p);
    KappaPositive(f, p);
    DivTimes(q, eta);
    assert ImpactLeft(p) == eta;
    KappaRoot(f, p);
    if Urgent(p, kappa) {
      assert (kappa * kappa) * eta == q;
      Cancel(kappa * kappa, x, eta);
      SameRoot(kappa, k);
    }
  }

  lemma KappaRoot(f: Elementary, p: Params)
    requires Lawful(f) && ValidParams(p)
    ensures Kappa(f, p) * Kappa(f, p) == RiskRatio(p)
  {
    var v := p.volatility * p.volatility;
    var q := p.riskAversion * v;
    var x := RiskRatio(p);
    ProductSign(p.volatility, p.volatility, v);
    ProductSign(p.riskAversion, v, q);
    DivTimes(q, EtaTilde(p));
    SignOfProduct(x, EtaTilde(p));
    assert IsRoot(f.sqrt, x);
  }

  lemma Cancel(x: real, y: real, d: real)
    requires d > 0.0 && x * d == y * d
    ensures x == y
  {
    MulLess(x, y, d);
    MulLess(y, x, d);
  }

  lemma SameRoot(x: real, y: real)
    requires x >= 0.0 && y >= 0.0 && x * x == y * y
    ensures x == y
  {
    if x < y { SmallerRoot(x, y); }
    if y < x { SmallerRoot(y, x); }
  }

  lemma SmallerRoot(x: real, y: real)
    requires 0.0 <= x < y
    ensures x * x < y * y
  {
    var gap, sum := y - x, y + x;
    MulLess(0.0, gap, sum);
    assert gap * sum == y * y - x * x;
  }

  // ---- Clock time ----------------------------------------------------------------------------------

  /** A risk-averse unmerged clock-time schedule is the closed form with decay
      r = exp(-kappa * T / n) for the urgency kappa of the parameters. */
  lemma ClockScheduleExactly(f: Elementary, p: Params, kappa: real, rate: real)
    requires Lawful(f) && BuildSchedule(f, p, None).Success? && p.intervals > 0
    requires p.minSize.None? && p.riskAversion > 0.0 && p.volatility > 0.0
    requires Urgent(p, kappa) && rate == kappa * (p.duration / p.intervals as real)
    ensures 0.0 < f.exp(-rate) < 1.0
    ensures ClosedForm(BuildSchedule(f, p, None).value, f.exp(-rate), p.intervals, p.total)
  {
    hide BuildSchedule, ClosedForm, Urgent, Kappa, Lawful, Decay, ImpactLeft;
    BuiltValid(f, p);
    KappaExactly(f, p, kappa);
    DecayIs(f, p, kappa, rate);
    ClockForm(f, p);
  }

  lemma BuiltValid(f: Elementary, p: Params)
    requires Lawful(f) && BuildSchedule(f, p, None).Success?
    ensures ValidParams(p)
  {
  }

  lemma DecayIs(f: Elementary, p: Params, kappa: real, rate: real)
    requires p.intervals > 0 && EtaTilde(p) > 0.0 && kappa == Kappa(f, p)
    requires rate == kappa * (p.duration / p.intervals as real)
    ensures Decay(f, p) == f.exp(-rate)
  {
    hide Kappa;
    assert DecayRate(f, p) == rate;
  }

  // ---- Volume time ---------------------------------------------------------------------------------

  // Twice the hyperbolic sine of x.
  function Spread(f: Elementary, x: real): real { f.exp(x) - f.exp(-x) }

  /** The stable ratio is sinh(a * u) / sinh(a), and u itself for a of 0. */
  lemma RatioIsSinh(f: Elementary, u: real, a: real)
    requires Lawful(f) && a >= 0.0
    ensures a > 0.0 ==> SinhRatio(f, u, a) * Spread(f, a) == Spread(f, a * u)
    ensures a == 0.0 ==> SinhRatio(f, u, a) == u
  {
    if a > 0.0 {
      var den := 1.0 - f.exp(-2.0 * a);
      var num := f.exp(a * (u - 1.0)) - f.exp(-a * (u + 1.0));
      DenPositive(f, a);
      DivTimes(num, den);
      Lift(f, a, a * (u - 1.0), a * u);
      Lift(f, a, -a * (u + 1.0), -(a * u));
      Lift(f, a, -2.0 * a, -a);
      var e := f.exp(a);
      assert SinhRatio(f, u, a) == num / den;
      SinhProduct(e, num / den, num, den, Spread(f, a), Spread(f, a * u),
                  f.exp(a * (u - 1.0)), f.exp(-a * (u + 1.0)), f.exp(-2.0 * a));
    }
  }

  lemma Lift(f: Elementary, a: real, x: real, y: real)
    requires Lawful(f) && y == a + x
    ensures f.exp(y) == f.exp(a) * f.exp(x)
  {
    assert ExpAdds(f.exp, a, x);
  }

  lemma SinhProduct(e: real, ratio: real, num: real, den: real, low: real, high: real, x: real, y: real, z: real)
    requires ratio * den == num && num == x - y && den == 1.0 - z
    requires low == e - e * z && high == e * x - e * y
    ensures ratio * low == high
  {
    assert low == e * den;
    assert high == e * num;
    Product(ratio, e, den);
    assert ratio * (e * den) == e * (ratio * den);
  }

  // x is sinh(a * u) / sinh(a), what is still held with a share u of the schedule to go.
  ghost predicate HeldAt(f: Elementary, x: real, u: real, a: real) {
    if a > 0.0 then x * Spread(f, a) == Spread(f, a * u) else x == u
  }

  lemma HeldAtExactly(f: Elementary, x: real, u: real, a: real)
    requires Lawful(f) && a >= 0.0
    ensures HeldAt(f, x, u, a) <==> x == SinhRatio(f, u, a)
  {
    RatioIsSinh(f, u, a);
    hide SinhRatio, Spread;
    if a > 0.0 {
      SpreadPositive(f, a);
      if HeldAt(f, x, u, a) { Cancel(x, SinhRatio(f, u, a), Spread(f, a)); }
    }
  }

  lemma SpreadPositive(f: Elementary, a: real)
    requires Lawful(f) && a > 0.0
    ensures Spread(f, a) > 0.0
  {
    assert ExpGrows(f.exp, -a, a);
  }

  /** Along given cumulative fractions every slice but the last of an unmerged schedule is what
      is held at the start of its interval less what is held at the end, for the urgency of the
      parameters; the last one makes up the total. */
  lemma VolumeScheduleExactly(
      f: Elementary, p: Params, v: seq<real>, kappa: real, a: real, j: nat, x: real, y: real)
    requires Lawful(f) && BuildSchedule(f, p, Some(v)).Success? && p.intervals > 0 && p.minSize.None?
    requires Urgent(p, kappa) && j + 2 < |v|
    requires a == kappa * p.duration && HeldAt(f, x, 1.0 - v[j], a) && HeldAt(f, y, 1.0 - v[j + 1], a)
    ensures var s := BuildSchedule(f, p, Some(v)).value;
            |s| == |v| - 1 && s[j] == (x - y) * p.total && Sum(s) == p.total
  {
    hide Urgency, Urgent, Kappa, HeldAt, Lawful, Slices, BuildSchedule, ImpactLeft, EtaTilde, SinhRatio, Spread;
    BuiltValidAlong(f, p, v);
    KappaExactly(f, p, kappa);
    UrgencyIs(f, p, kappa, a);
    KappaPositive(f, p);
    ProductSignOf(kappa, p.duration, a);
    HeldAtExactly(f, x, 1.0 - v[j], a);
    HeldAtExactly(f, y, 1.0 - v[j + 1], a);
    var h := Holdings(f, v, a);
    assert h[j] == x && h[j + 1] == y;
    hide Holdings;
    SliceSize(h, p.total, j);
    SlicesSumToTotal(h, p.total);
  }

  lemma ProductSignOf(x: real, y: real, z: real)
    requires x >= 0.0 && y > 0.0 && z == x * y
    ensures z >= 0.0
  {
    SignOfProduct(x, y);
  }

  lemma UrgencyIs(f: Elementary, p: Params, kappa: real, a: real)
    requires p.intervals > 0 && EtaTilde(p) > 0.0 && kappa == Kappa(f, p) && a == kappa * p.duration
    ensures Urgency(f, p) == a
  {
  }

  lemma BuiltValidAlong(f: Elementary, p: Params, v: seq<real>)
    requires Lawful(f) && BuildSchedule(f, p, Some(v)).Success? && p.minSize.None?
    ensures ValidParams(p) && p.duration > 0.0
    ensures BuildSchedule(f, p, Some(v)).value == Slices(Holdings(f, v, Urgency(f, p)), p.total)
  {
  }

  /** The cumulative fractions are the shares of the volume traded so far. */
  lemma FractionsAreShares(volumes: seq<real>, k: nat)
    requires Sum(volumes) > 0.0 && k <= |volumes|
    ensures |Fractions(volumes)| == |volumes| + 1
    ensures Fractions(volumes)[k] * Sum(volumes) == Sum(volumes[..k])
  {
    if k == |volumes| { assert volumes[..k] == volumes; } else { DivTimes(Sum(volumes[..k]), Sum(volumes)); }
  }

  /** Without risk aversion the slices follow the volumes: each is to the total as its bucket's
      volume is to all of it. */
  lemma SlicesFollowVolumes(f: Elementary, p: Params, volumes: seq<real>, j: nat)
    requires Lawful(f) && Sum(volumes) > 0.0 && j < |volumes| && p.intervals > 0
    requires BuildSchedule(f, p, Some(Fractions(volumes))).Success? && p.minSize.None?
    requires p.riskAversion == 0.0 || p.volatility == 0.0
    ensures var s := BuildSchedule(f, p, Some(Fractions(volumes))).value;
            |s| == |volumes| && s[j] * Sum(volumes) == volumes[j] * p.total
  {
    hide Urgency, Kappa, Lawful, BuildSchedule, Fractions, Sum, EtaTilde, Slices, Holdings, SinhRatio;
    var v, all := Fractions(volumes), Sum(volumes);
    var h := Holdings(f, v, 0.0);
    BuiltValidAlong(f, p, v);
    NoUrgency(f, p);
    FractionsAreShares(volumes, 0);
    FractionsAreShares(volumes, j);
    FractionsAreShares(volumes, j + 1);
    FractionsAreShares(volumes, |volumes|);
    HoldingsFlat(f, v, 0);
    HoldingsFlat(f, v, j);
    HoldingsFlat(f, v, j + 1);
    assert volumes[..j + 1] == volumes[..j] + [volumes[j]];
    SumAppend(volumes[..j], volumes[j]);
    assert volumes[..0] == [] && volumes[..|volumes|] == volumes;
    SumZero([]);
    Cancel(v[0], 0.0, all);
    Cancel(v[|volumes|], 1.0, all);
    var part := v[j + 1] - v[j];
    FollowSlice(h, p.total, j, part);
    FollowShare(v[j], v[j + 1], part, all, volumes[j], p.total, Slices(h, p.total)[j]);
  }

  lemma NoUrgency(f: Elementary, p: Params)
    requires Lawful(f) && ValidParams(p) && (p.riskAversion == 0.0 || p.volatility == 0.0)
    ensures Urgency(f, p) == 0.0
  {
    KappaPositive(f, p);
  }

  lemma HoldingsFlat(f: Elementary, v: seq<real>, j: nat)
    requires Lawful(f) && j < |v|
    ensures |Holdings(f, v, 0.0)| == |v| && Holdings(f, v, 0.0)[j] == 1.0 - v[j]
  {
  }

  lemma FollowSlice(h: seq<real>, total: real, j: nat, part: real)
    requires j < |h| - 1 && h[0] == 1.0 && h[j] - h[j + 1] == part && (j == |h| - 2 ==> h[j + 1] == 0.0)
    ensures |Slices(h, total)| == |h| - 1 && Slices(h, total)[j] == part * total
  {
    SliceSize(h, total, j);
    if j == |h| - 2 {
      LastSlice(h, total);
      hide Slices;
      TakenFrom(part, total);
    }
  }

  lemma LastSlice(h: seq<real>, total: real)
    requires |h| >= 2
    ensures |Slices(h, total)| == |h| - 1
    ensures Slices(h, total)[|h| - 2] == total - (h[0] - h[|h| - 2]) * total
  {
  }

  lemma TakenFrom(part: real, total: real)
    ensures total - (1.0 - part) * total == part * total
  {
  }

  lemma FollowShare(x: real, y: real, part: real, all: real, volume: real, total: real, slice: real)
    requires part == y - x && y * all == x * all + volume && slice == part * total
    ensures slice * all == volume * total
  {
    assert part * all == volume;
    Product(part, total, all);
    assert slice * all == total * (part * all);
  }
}
