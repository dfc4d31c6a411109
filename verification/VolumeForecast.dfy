/**
 Intraday volume forecast: the mean trading rate of each hour of the day, read off past
 candles, spread over the buckets of a schedule. Without usable data it is uniform.
 */
module VolumeForecast {
  import opened Common

  const MS_PER_HOUR := 3_600_000
  const HOURS_PER_DAY := 24

  datatype Candle = Candle(openTime: int, closeTime: int, volume: real)

  predicate Usable(c: Candle) { Seconds(c) > 0.0 }

  function Seconds(c: Candle): real { (c.closeTime - c.openTime) as real / 1000.0 }

  function HourOf(ms: int): (h: nat)
    ensures h < HOURS_PER_DAY
  {
    ms / MS_PER_HOUR % HOURS_PER_DAY
  }

  function Rate(c: Candle): real
    requires Usable(c)
  {
    c.volume / Seconds(c)
  }

  // The trading rates of the usable candles opened in hour h of any day, in order.
  function RatesAt(candles: seq<Candle>, h: nat): seq<real> {
    if candles == [] then []
    else
      var last := candles[|candles| - 1];
      var before := RatesAt(candles[..|candles| - 1], h);
      if Usable(last) && HourOf(last.openTime) == h then before + [Rate(last)] else before
  }

  function MeanOf(sum: real, count: nat): real
    requires count > 0
  {
    sum / count as real
  }

  function Mean(xs: seq<real>): real
    requires xs != []
  {
    MeanOf(Sum(xs), |xs|)
  }

  // The means of the populated hours among the first n.
  function HourMeans(candles: seq<Candle>, n: nat): seq<real> {
    if n == 0 then []
    else
      var before := HourMeans(candles, n - 1);
      var rates := RatesAt(candles, n - 1);
      if rates == [] then before else before + [Mean(rates)]
  }

  function HourRate(candles: seq<Candle>, h: nat, missing: real): real {
    if RatesAt(candles, h) == [] then missing else Mean(RatesAt(candles, h))
  }

  // One rate per hour of the day; hours without data take the mean of the others.
  function HourlyRates(candles: seq<Candle>): Option<seq<real>> {
    var means := HourMeans(candles, HOURS_PER_DAY);
    if means == [] then None
    else
      Some(seq(HOURS_PER_DAY, h requires 0 <= h < HOURS_PER_DAY => HourRate(candles, h, Mean(means))))
  }

  function Uniform(n: int): seq<real> {
    if n <= 0 then [] else seq(n, _ => 1.0 / n as real)
  }

  // The middle of bucket j, in epoch milliseconds.
  function Midpoint(start: int, bucketSeconds: real, j: nat): int {
    start + ((j as real + 0.5) * (bucketSeconds * 1000.0)).Floor
  }

  function BucketVolume(rates: seq<real>, start: int, bucketSeconds: real, j: nat): real
    requires |rates| == HOURS_PER_DAY
  {
    rates[HourOf(Midpoint(start, bucketSeconds, j))] * bucketSeconds
  }

  function Buckets(rates: seq<real>, start: int, bucketSeconds: real, n: nat): seq<real>
    requires |rates| == HOURS_PER_DAY
  {
    seq(n, j requires 0 <= j < n => BucketVolume(rates, start, bucketSeconds, j))
  }

  // `candles` is None when there is no provider or fetching failed.
  function Forecast(candles: Option<seq<Candle>>, n: int, bucketSeconds: real, start: int): Result<seq<real>> {
    if n <= 0 then Success([])
    else if bucketSeconds <= 0.0 then Failure("bucket_seconds must be positive")
    else
      var rates := if candles.None? then None else HourlyRates(candles.value);
      if rates.None? then Success(Uniform(n))
      else
        var buckets := Buckets(rates.value, start, bucketSeconds, n);
        if Sum(buckets) <= 0.0 then Success(Uniform(n)) else Success(buckets)
  }

  // ---- The forecast as it runs ------------------------------------------------------------

  method BuildHourlyRateProfile(candles: Option<seq<Candle>>) returns (profile: Option<seq<real>>)
    ensures profile == if candles.None? then None else HourlyRates(candles.value)
  {
    if candles.None? || candles.value == [] {
      NoCandles(HOURS_PER_DAY);
      return None;
    }
    var cs := candles.value;
    var sums := new real[HOURS_PER_DAY](_ => 0.0);
    var counts := new nat[HOURS_PER_DAY](_ => 0);
    Tally(cs, sums, counts);
    var populated := [];
    for h := 0 to HOURS_PER_DAY
      invariant populated == HourMeans(cs, h)
    {
      if counts[h] > 0 {
        populated := populated + [MeanOf(sums[h], counts[h])];
      }
    }
    if populated == [] { return None; }
    hide HourMeans, MeanOf, Sum, RatesAt;
    var globalMean := Mean(populated);
    var rates := [];
    for h := 0 to HOURS_PER_DAY
      invariant |rates| == h
      invariant forall k :: 0 <= k < h ==> rates[k] == HourRate(cs, k, globalMean)
    {
      rates := rates + [if counts[h] > 0 then MeanOf(sums[h], counts[h]) else globalMean];
    }
    assert rates == HourlyRates(cs).value;
    profile := Some(rates);
  }

  // Adds up the rates of each hour, and counts them.
  method Tally(cs: seq<Candle>, sums: array<real>, counts: array<nat>)
    requires sums.Length == counts.Length == HOURS_PER_DAY
    requires forall h :: 0 <= h < HOURS_PER_DAY ==> sums[h] == 0.0 && counts[h] == 0
    modifies sums, counts
    ensures forall h :: 0 <= h < HOURS_PER_DAY ==>
      sums[h] == Sum(RatesAt(cs, h)) && counts[h] == |RatesAt(cs, h)|
  {
    for i := 0 to |cs|
      invariant forall h :: 0 <= h < HOURS_PER_DAY ==>
        sums[h] == Sum(RatesAt(cs[..i], h)) && counts[h] == |RatesAt(cs[..i], h)|
    {
      hide HourOf, Rate, Usable, Sum;
      var c := cs[i];
      assert cs[..i + 1][..i] == cs[..i];
      if Usable(c) {
        var hour := HourOf(c.openTime);
        SumAppend(RatesAt(cs[..i], hour), Rate(c));
        sums[hour] := sums[hour] + Rate(c);
        counts[hour] := counts[hour] + 1;
      }
    }
    assert cs[..|cs|] == cs;
  }

  lemma {:induction false} NoCandles(n: nat)
    ensures HourMeans([], n) == []
  {
    if n > 0 { NoCandles(n - 1); }
  }

  method ForecastVolumes(candles: Option<seq<Candle>>, n: int, bucketSeconds: real, start: int)
    returns (r: Result<seq<real>>)
    ensures r == Forecast(candles, n, bucketSeconds, start)
  {
    if n <= 0 { return Success([]); }
    if bucketSeconds <= 0.0 { return Failure("bucket_seconds must be positive"); }
    var hourly := BuildHourlyRateProfile(candles);
    if hourly.None? { return Success(Uniform(n)); }
    hide BucketVolume, Sum, HourlyRates;
    var forecast := [];
    for j := 0 to n
      invariant forecast == Buckets(hourly.value, start, bucketSeconds, j)
    {
      forecast := forecast + [BucketVolume(hourly.value, start, bucketSeconds, j)];
    }
    if Sum(forecast) <= 0.0 { return Success(Uniform(n)); }
    r := Success(forecast);
  }

  // ---- What a forecast is ---------------------------------------------------------------------

  ghost predicate Within(xs: seq<real>, low: real, high: real) {
    forall i :: 0 <= i < |xs| ==> low <= xs[i] <= high
  }

  lemma MeanWithin(xs: seq<real>, low: real, high: real)
    requires xs != [] && Within(xs, low, high)
    ensures low <= Mean(xs) <= high
  {
    var n := |xs| as real;
    SumAtLeast(xs, low, n);
    SumAtMost(xs, high, n);
    var m := Mean(xs);
    DivTimes(Sum(xs), n);
    hide Mean, Sum;
    MulLess(low, m, n);
    MulLess(m, high, n);
  }

  ghost predicate RatesWithin(candles: seq<Candle>, low: real, high: real) {
    forall i :: 0 <= i < |candles| && Usable(candles[i]) ==> low <= Rate(candles[i]) <= high
  }

  lemma {:induction false} HourRatesWithin(candles: seq<Candle>, h: nat, low: real, high: real)
    requires RatesWithin(candles, low, high)
    ensures Within(RatesAt(candles, h), low, high)
  {
    if candles != [] {
      var n := |candles| - 1;
      assert forall i :: 0 <= i < n ==> candles[..n][i] == candles[i];
      HourRatesWithin(candles[..n], h, low, high);
    }
  }

  lemma {:induction false} HourMeansWithin(candles: seq<Candle>, n: nat, low: real, high: real)
    requires RatesWithin(candles, low, high)
    ensures Within(HourMeans(candles, n), low, high)
  {
    if n > 0 {
      HourMeansWithin(candles, n - 1, low, high);
      HourRatesWithin(candles, n - 1, low, high);
      if RatesAt(candles, n - 1) != [] {
        MeanWithin(RatesAt(candles, n - 1), low, high);
      }
    }
  }

  /** Averaging stays within the data: every hour's rate, including one borrowed from the
      other hours, lies between the lowest and the highest rate ever traded. */
  lemma ProfileWithin(candles: seq<Candle>, low: real, high: real)
    requires RatesWithin(candles, low, high) && HourlyRates(candles).Some?
    ensures |HourlyRates(candles).value| == HOURS_PER_DAY && Within(HourlyRates(candles).value, low, high)
  {
    var means := HourMeans(candles, HOURS_PER_DAY);
    HourMeansWithin(candles, HOURS_PER_DAY, low, high);
    MeanWithin(means, low, high);
    forall h | 0 <= h < HOURS_PER_DAY ensures low <= HourRate(candles, h, Mean(means)) <= high {
      HourRatesWithin(candles, h, low, high);
      if RatesAt(candles, h) != [] { MeanWithin(RatesAt(candles, h), low, high); }
    }
  }

  ghost predicate Traded(candles: seq<Candle>) {
    forall i :: 0 <= i < |candles| ==> candles[i].volume >= 0.0
  }

  lemma TradedRates(candles: seq<Candle>) returns (high: real)
    requires Traded(candles)
    ensures RatesWithin(candles, 0.0, high)
  {
    high := HighestRate(candles);
    forall i | 0 <= i < |candles| && Usable(candles[i]) ensures 0.0 <= Rate(candles[i]) {
      DivTimes(candles[i].volume, Seconds(candles[i]));
      SignOfProduct(Rate(candles[i]), Seconds(candles[i]));
    }
  }

  lemma {:induction false} HighestRate(candles: seq<Candle>) returns (high: real)
    ensures forall i :: 0 <= i < |candles| && Usable(candles[i]) ==> Rate(candles[i]) <= high
  {
    high := 0.0;
    if candles != [] {
      var n := |candles| - 1;
      high := HighestRate(candles[..n]);
      assert forall i :: 0 <= i < n ==> candles[..n][i] == candles[i];
      if Usable(candles[n]) { high := Max(high, Rate(candles[n])); }
    }
  }

  /** A forecast always fills its buckets and never sums to nothing, whatever the data; from
      non-negative volumes no bucket is negative. */
  lemma ForecastShape(candles: Option<seq<Candle>>, n: int, bucketSeconds: real, start: int)
    requires n > 0 && bucketSeconds > 0.0
    ensures Forecast(candles, n, bucketSeconds, start).Success?
    ensures |Forecast(candles, n, bucketSeconds, start).value| == n
    ensures Sum(Forecast(candles, n, bucketSeconds, start).value) > 0.0
    ensures (candles.Some? ==> Traded(candles.value)) ==>
              NonNegative(Forecast(candles, n, bucketSeconds, start).value)
  {
    UniformShape(n);
    if candles.Some? && HourlyRates(candles.value).Some? && Traded(candles.value) {
      var high := TradedRates(candles.value);
      ProfileWithin(candles.value, 0.0, high);
      var rates := HourlyRates(candles.value).value;
      forall j | 0 <= j < n ensures BucketVolume(rates, start, bucketSeconds, j) >= 0.0 {
        SignOfProduct(rates[HourOf(Midpoint(start, bucketSeconds, j))], bucketSeconds);
      }
    }
  }

  lemma UniformShape(n: int)
    requires n > 0
    ensures |Uniform(n)| == n && Sum(Uniform(n)) == 1.0 && NonNegative(Uniform(n))
  {
    var share := 1.0 / n as real;
    SumConstant(n, share);
    DivTimes(1.0, n as real);
    assert Uniform(n) == seq(n, _ => share);
    assert share > 0.0;
  }

  // ---- What a forecast does not depend on -------------------------------------------------------

  lemma {:induction false} RatesConcat(a: seq<Candle>, b: seq<Candle>, h: nat)
    ensures RatesAt(a + b, h) == RatesAt(a, h) + RatesAt(b, h)
  {
    if b == [] {
      assert a + b == a;
    } else {
      var n := |b| - 1;
      assert (a + b)[..|a + b| - 1] == a + b[..n];
      RatesConcat(a, b[..n], h);
    }
  }

  lemma OneMore(before: seq<Candle>, x: Candle, after: seq<Candle>)
    ensures multiset(before + [x] + after) == multiset(before + after) + multiset{x}
  {
    assert before + [x] + after == before + ([x] + after);
  }

  lemma OneLess(m: multiset<Candle>, n: multiset<Candle>, x: Candle)
    requires m + multiset{x} == n + multiset{x}
    ensures m == n
  {
    assert m == m + multiset{x} - multiset{x} && n == n + multiset{x} - multiset{x};
  }

  // The last element of a sequence can be taken out of any permutation of it.
  lemma TakeOut(a: seq<Candle>, b: seq<Candle>) returns (i: nat)
    requires multiset(a) == multiset(b) && a != []
    ensures i < |b| && b[i] == a[|a| - 1]
    ensures multiset(a[..|a| - 1]) == multiset(b[..i] + b[i + 1..])
  {
    var x := a[|a| - 1];
    assert x in multiset(b);
    i :| 0 <= i < |b| && b[i] == x;
    var rest, before, after := a[..|a| - 1], b[..i], b[i + 1..];
    assert a == rest + [x] && b == before + [x] + after;
    OneMore(before, x, after);
    OneLess(multiset(rest), multiset(before + after), x);
  }

  lemma {:induction false} RatesPermuted(a: seq<Candle>, b: seq<Candle>, h: nat)
    requires multiset(a) == multiset(b)
    ensures |RatesAt(a, h)| == |RatesAt(b, h)| && Sum(RatesAt(a, h)) == Sum(RatesAt(b, h))
  {
    hide RatesAt, Sum;
    if a == [] {
      assert |multiset(b)| == 0;
    } else {
      var n := |a| - 1;
      var i := TakeOut(a, b);
      var before, after, x := b[..i], b[i + 1..], a[n];
      RatesPermuted(a[..n], before + after, h);
      RatesSplit(a[..n], x, [], h);
      RatesSplit(before, x, after, h);
      assert a[..n] + [] == a[..n] && a[..n] + [x] + [] == a && before + [x] + after == b;
    }
  }

  lemma RatesSplit(before: seq<Candle>, x: Candle, after: seq<Candle>, h: nat)
    ensures |RatesAt(before + [x] + after, h)| == |RatesAt(before + after, h)| + |RatesAt([x], h)|
    ensures Sum(RatesAt(before + [x] + after, h)) == Sum(RatesAt(before + after, h)) + Sum(RatesAt([x], h))
  {
    var r, s, u := RatesAt(before, h), RatesAt([x], h), RatesAt(after, h);
    RatesConcat(before + [x], after, h);
    RatesConcat(before, [x], h);
    RatesConcat(before, after, h);
    SumConcat(r + s, u);
    SumConcat(r, s);
    SumConcat(r, u);
  }

  lemma {:induction false} HourMeansPermuted(a: seq<Candle>, b: seq<Candle>, n: nat)
    requires multiset(a) == multiset(b)
    ensures HourMeans(a, n) == HourMeans(b, n)
  {
    hide RatesAt, Sum;
    if n > 0 {
      HourMeansPermuted(a, b, n - 1);
      RatesPermuted(a, b, n - 1);
    }
  }

  /** The forecast does not depend on the order in which candles arrive. */
  lemma ForecastIgnoresOrder(a: seq<Candle>, b: seq<Candle>, n: int, bucketSeconds: real, start: int)
    requires multiset(a) == multiset(b)
    ensures Forecast(Some(a), n, bucketSeconds, start) == Forecast(Some(b), n, bucketSeconds, start)
  {
    HourMeansPermuted(a, b, HOURS_PER_DAY);
    var means := HourMeans(a, HOURS_PER_DAY);
    if means != [] {
      forall h | 0 <= h < HOURS_PER_DAY ensures HourRate(a, h, Mean(means)) == HourRate(b, h, Mean(means)) {
        RatesPermuted(a, b, h);
      }
      assert HourlyRates(a).value == HourlyRates(b).value;
    }
  }

  /** Nor on the day: starting a whole number of days later gives the same forecast. */
  lemma ForecastIsDaily(candles: Option<seq<Candle>>, n: int, bucketSeconds: real, start: int, days: nat)
    ensures Forecast(candles, n, bucketSeconds, start + days * (HOURS_PER_DAY * MS_PER_HOUR))
            == Forecast(candles, n, bucketSeconds, start)
  {
    var later := start + days * (HOURS_PER_DAY * MS_PER_HOUR);
    if n > 0 && candles.Some? && HourlyRates(candles.value).Some? {
      var rates := HourlyRates(candles.value).value;
      forall j | 0 <= j < n
        ensures BucketVolume(rates, later, bucketSeconds, j) == BucketVolume(rates, start, bucketSeconds, j)
      {
        SameHour(Midpoint(start, bucketSeconds, j), days);
      }
      assert Buckets(rates, later, bucketSeconds, n) == Buckets(rates, start, bucketSeconds, n);
    }
  }

  lemma {:induction false} SameHour(ms: int, days: nat)
    ensures HourOf(ms + days * (HOURS_PER_DAY * MS_PER_HOUR)) == HourOf(ms)
  {
    if days > 0 {
      SameHour(ms, days - 1);
      var before := ms + (days - 1) * (HOURS_PER_DAY * MS_PER_HOUR);
      assert (before + HOURS_PER_DAY * MS_PER_HOUR) / MS_PER_HOUR == before / MS_PER_HOUR + HOURS_PER_DAY;
    }
  }

  // ---- What a bucket reads ----------------------------------------------------------------------

  // A time in epoch milliseconds falls in hour h of some day.
  ghost predicate Falls(time: real, h: nat, day: int) {
    (day * 86_400_000 + h * 3_600_000) as real <= time < (day * 86_400_000 + (h + 1) * 3_600_000) as real
  }

  ghost predicate InHour(time: real, h: nat) { h < 24 && exists day: int :: Falls(time, h, day) }

  lemma HourExactly(ms: int, h: nat)
    ensures InHour(ms as real, h) <==> HourOf(ms) == h
  {
    if InHour(ms as real, h) {
      var day: int :| Falls(ms as real, h, day);
      HourDivides(ms, h, day);
    } else if HourOf(ms) == h {
      DayOf(ms);
      assert Falls(ms as real, h, ms / 86_400_000);
    }
  }

  lemma HourDivides(ms: int, h: nat, day: int)
    requires h < 24 && day * 86_400_000 + h * 3_600_000 <= ms < day * 86_400_000 + (h + 1) * 3_600_000
    ensures HourOf(ms) == h
  {
    assert ms / 3_600_000 == day * 24 + h;
  }

  lemma DayOf(ms: int)
    ensures var day := ms / 86_400_000; var h := HourOf(ms);
            day * 86_400_000 + h * 3_600_000 <= ms < day * 86_400_000 + (h + 1) * 3_600_000
  {
    var hours := ms / 3_600_000;
    assert hours / 24 == ms / 86_400_000;
  }

  // The middle of bucket j: half a bucket after j whole ones.
  function Middle(start: int, bucketSeconds: real, j: nat): real {
    start as real + (j as real + 0.5) * (bucketSeconds * 1000.0)
  }

  // Dropping the fraction of a millisecond changes no hour.
  lemma WholeMillisecond(start: int, x: real, h: nat)
    requires InHour(start as real + x, h)
    ensures HourOf(start + x.Floor) == h
  {
    var day: int :| Falls(start as real + x, h, day);
    hide HourOf;
    FloorBetween(start, x, day * 86_400_000 + h * 3_600_000, day * 86_400_000 + (h + 1) * 3_600_000);
    HourDivides(start + x.Floor, h, day);
  }

  lemma FloorBetween(start: int, x: real, low: int, high: int)
    requires low as real <= start as real + x < high as real
    ensures low <= start + x.Floor < high
  {
    assert (low - start) as real <= x < (high - start) as real;
  }

  lemma MidpointHour(start: int, bucketSeconds: real, j: nat, h: nat)
    requires InHour(Middle(start, bucketSeconds, j), h)
    ensures HourOf(Midpoint(start, bucketSeconds, j)) == h
  {
    hide InHour, HourOf;
    WholeMillisecond(start, (j as real + 0.5) * (bucketSeconds * 1000.0), h);
  }

  // Volume per second of the candles that span some time and open in hour h, in order.
  ghost function Opened(candles: seq<Candle>, h: nat): seq<real> {
    if candles == [] then []
    else
      var c := candles[|candles| - 1];
      Opened(candles[..|candles| - 1], h)
      + if c.closeTime > c.openTime && InHour(c.openTime as real, h)
        then [c.volume * 1000.0 / (c.closeTime - c.openTime) as real] else []
  }

  lemma {:induction false} OpenedRates(candles: seq<Candle>, h: nat)
    ensures Opened(candles, h) == RatesAt(candles, h)
  {
    if candles != [] {
      var c := candles[|candles| - 1];
      OpenedRates(candles[..|candles| - 1], h);
      HourExactly(c.openTime, h);
      hide HourOf, InHour;
      if Usable(c) { PerSecond(c); }
    }
  }

  lemma PerSecond(c: Candle)
    requires Usable(c)
    ensures c.closeTime > c.openTime && Rate(c) == c.volume * 1000.0 / (c.closeTime - c.openTime) as real
  {
    var ms := (c.closeTime - c.openTime) as real;
    var rate, other := Rate(c), c.volume * 1000.0 / ms;
    DivTimes(c.volume, Seconds(c));
    DivTimes(c.volume * 1000.0, ms);
    assert rate * ms == rate * Seconds(c) * 1000.0;
    MulLess(rate, other, ms);
    MulLess(other, rate, ms);
  }

  // x is the mean of the rates.
  ghost predicate IsMean(x: real, rates: seq<real>) { rates != [] && x * |rates| as real == Sum(rates) }

  lemma MeanExactly(x: real, rates: seq<real>)
    requires rates != []
    ensures IsMean(x, rates) <==> x == Mean(rates)
  {
    var n, m := |rates| as real, Mean(rates);
    DivTimes(Sum(rates), n);
    hide Sum, Mean;
    MulLess(x, m, n);
    MulLess(m, x, n);
  }

  // One mean for each of the first n hours in which candles opened, in order.
  ghost predicate AreMeans(means: seq<real>, candles: seq<Candle>, n: nat)
    decreases n
  {
    if n == 0 then means == []
    else if Opened(candles, n - 1) == [] then AreMeans(means, candles, n - 1)
    else
      means != [] && IsMean(means[|means| - 1], Opened(candles, n - 1))
      && AreMeans(means[..|means| - 1], candles, n - 1)
  }

  lemma {:induction false} MeansExactly(means: seq<real>, candles: seq<Candle>, n: nat)
    ensures AreMeans(means, candles, n) <==> means == HourMeans(candles, n)
  {
    hide Opened, RatesAt, IsMean, Mean;
    if n > 0 {
      var seen := Opened(candles, n - 1);
      OpenedRates(candles, n - 1);
      if seen == [] {
        MeansExactly(means, candles, n - 1);
      } else if means != [] {
        var init, last := means[..|means| - 1], means[|means| - 1];
        MeansExactly(init, candles, n - 1);
        MeanExactly(last, seen);
        LastMean(HourMeans(candles, n - 1), Mean(seen), means);
      }
    }
  }

  lemma LastMean(before: seq<real>, mean: real, means: seq<real>)
    requires means != []
    ensures means == before + [mean] <==> means[..|means| - 1] == before && means[|means| - 1] == mean
  {
    assert means == means[..|means| - 1] + [means[|means| - 1]];
  }

  // The rate of hour h: the mean of its candles, or of the other hours' means.
  ghost predicate RateOfHour(x: real, candles: seq<Candle>, h: nat, means: seq<real>) {
    if Opened(candles, h) != [] then IsMean(x, Opened(candles, h)) else IsMean(x, means)
  }

  // A bucket's volume: its length times the rate of the hour its middle falls in.
  ghost predicate BucketReads(
      x: real, candles: seq<Candle>, means: seq<real>, start: int, bucketSeconds: real, j: nat, h: nat, rate: real)
  {
    && InHour(Middle(start, bucketSeconds, j), h)
    && RateOfHour(rate, candles, h, means) && x == rate * bucketSeconds
  }

  lemma ReadExactly(
      x: real, candles: seq<Candle>, means: seq<real>, start: int, bucketSeconds: real, j: nat, h: nat, rate: real)
    requires AreMeans(means, candles, 24) && means != []
    requires BucketReads(x, candles, means, start, bucketSeconds, j, h, rate)
    ensures HourlyRates(candles).Some? && x == BucketVolume(HourlyRates(candles).value, start, bucketSeconds, j)
  {
    hide AreMeans, HourMeans, Opened, RatesAt, Midpoint, HourOf, InHour, IsMean, Mean, Middle;
    MeansExactly(means, candles, 24);
    OpenedRates(candles, h);
    MidpointHour(start, bucketSeconds, j, h);
    if Opened(candles, h) != [] { MeanExactly(rate, Opened(candles, h)); } else { MeanExactly(rate, means); }
    assert HourlyRates(candles).value[h] == rate;
  }

  /** A forecast gives each bucket its length times the mean rate of the hour of the day its
      middle falls in, over the candles opened in that hour of any day; an hour without any
      takes the mean of the other hours' means. It is uniform exactly without a candle that
      spans some time, or if the buckets sum to nothing. */
  lemma ForecastReads(
      candles: seq<Candle>, means: seq<real>, n: nat, bucketSeconds: real, start: int,
      buckets: seq<real>, hours: seq<nat>, rates: seq<real>)
    requires n > 0 && bucketSeconds > 0.0 && AreMeans(means, candles, 24)
    requires |buckets| == |hours| == |rates| == n
    requires means != [] ==>
               forall j :: 0 <= j < n ==>
                 BucketReads(buckets[j], candles, means, start, bucketSeconds, j, hours[j], rates[j])
    ensures Forecast(Some(candles), n, bucketSeconds, start)
            == Success(if means == [] || Sum(buckets) <= 0.0 then Uniform(n) else buckets)
  {
    hide AreMeans, BucketReads, Sum, BucketVolume;
    MeansExactly(means, candles, 24);
    if means != [] {
      forall j | 0 <= j < n ensures buckets[j] == BucketVolume(HourlyRates(candles).value, start, bucketSeconds, j) {
        ReadExactly(buckets[j], candles, means, start, bucketSeconds, j, hours[j], rates[j]);
      }
      ReadExactly(buckets[0], candles, means, start, bucketSeconds, 0, hours[0], rates[0]);
      assert buckets == Buckets(HourlyRates(candles).value, start, bucketSeconds, n);
    }
  }

  /** Without candles, or without one that spans some time, every bucket gets the same. */
  lemma UniformExactly(candles: Option<seq<Candle>>, n: nat, bucketSeconds: real, start: int, j: nat)
    requires j < n && bucketSeconds > 0.0
    requires candles.Some? ==>
               forall i :: 0 <= i < |candles.value| ==> candles.value[i].closeTime <= candles.value[i].openTime
    ensures var r := Forecast(candles, n, bucketSeconds, start);
            r.Success? && |r.value| == n && r.value[j] * n as real == 1.0
  {
    DivTimes(1.0, n as real);
    if candles.Some? { NoMeans(candles.value, 24); }
  }

  lemma {:induction false} NoMeans(candles: seq<Candle>, n: nat)
    requires forall i :: 0 <= i < |candles| ==> candles[i].closeTime <= candles[i].openTime
    ensures HourMeans(candles, n) == []
  {
    if n > 0 {
      NoMeans(candles, n - 1);
      NoRates(candles, n - 1);
    }
  }

  lemma {:induction false} NoRates(candles: seq<Candle>, h: nat)
    requires forall i :: 0 <= i < |candles| ==> candles[i].closeTime <= candles[i].openTime
    ensures RatesAt(candles, h) == []
  {
    if candles != [] { NoRates(candles[..|candles| - 1], h); }
  }
}
