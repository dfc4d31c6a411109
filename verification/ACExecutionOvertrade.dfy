/**
 A reachable run that over-trades: an order fails after a newer, larger slice was sent, and
 the larger slice is sent again in its place.
 */
module ACExecutionOvertrade {
  import opened Common
  import opened ACMath
  import opened ACShape
  import opened ACExecution
  import opened ACExecutionRuns
  import opened ACExecutionTheorems
  import opened VolumeForecast
  import PA = PassiveAggressive

  // Ten units over three hours, no risk aversion, so that slices follow the volumes.
  function Ten(): Config {
    Config(Params(10.0, 10800.0, 3, 0.0, 0.0, 1.0, 0.0, None), true, true, 10)
  }

  // The second hour trades eight times the volume of the others.
  function BusyHour(): seq<Candle> {
    [Candle(0, 3_600_000, 1.0), Candle(3_600_000, 7_200_000, 8.0), Candle(7_200_000, 10_800_000, 1.0)]
  }

  function OlderFails(): seq<Event> {
    [ControlTask(0.0, Some(BusyHour()), 0, Unexecuted), ControlTask(3600.0, None, 0, Unexecuted),
     OrderFailed(0), ControlTask(7200.0, None, 0, Unexecuted)]
  }

  lemma HourOfEach()
    ensures HourOf(0) == 0 && HourOf(3_600_000) == 1 && HourOf(7_200_000) == 2
    ensures HourOf(Midpoint(0, 3600.0, 0)) == 0
    ensures HourOf(Midpoint(0, 3600.0, 1)) == 1
    ensures HourOf(Midpoint(0, 3600.0, 2)) == 2
  {
    assert Midpoint(0, 3600.0, 0) == 1_800_000;
    assert Midpoint(0, 3600.0, 1) == 5_400_000;
    assert Midpoint(0, 3600.0, 2) == 9_000_000;
  }

  lemma BusyRates()
    ensures RatesAt(BusyHour(), 0) == [1.0 / 3600.0]
    ensures RatesAt(BusyHour(), 1) == [8.0 / 3600.0]
    ensures RatesAt(BusyHour(), 2) == [1.0 / 3600.0]
  {
    HourOfEach();
    var c := BusyHour();
    assert c[..2] == [c[0], c[1]] && c[..2][..1] == [c[0]] && c[..2][..1][..0] == [];
    assert Seconds(c[0]) == Seconds(c[1]) == Seconds(c[2]) == 3600.0;
    hide HourOf;
    forall h: nat | h <= 2 ensures RatesAt(c, h) == RatesAt([c[0], c[1]], h) + (if h == 2 then [Rate(c[2])] else []) {}
    forall h: nat | h <= 2
      ensures RatesAt([c[0], c[1]], h) == RatesAt([c[0]], h) + (if h == 1 then [Rate(c[1])] else [])
    {
      assert [c[0], c[1]][..1] == [c[0]];
    }
    forall h: nat | h <= 2 ensures RatesAt([c[0]], h) == (if h == 0 then [Rate(c[0])] else []) {
      assert [c[0]][..0] == [];
    }
  }

  lemma {:induction false} SomeHour(candles: seq<Candle>, n: nat)
    requires n >= 1 && RatesAt(candles, 0) != []
    ensures HourMeans(candles, n) != []
  {
    if n > 1 { SomeHour(candles, n - 1); }
  }

  lemma BusyBucket(rate: real, volume: real)
    requires rate == volume / 3600.0
    ensures Mean([rate]) == rate && rate * 3600.0 == volume
  {
    SumAppend([], rate);
    assert [] + [rate] == [rate];
  }

  lemma BusyHourRate(h: nat, volume: real, missing: real)
    requires RatesAt(BusyHour(), h) == [volume / 3600.0]
    ensures HourRate(BusyHour(), h, missing) * 3600.0 == volume
  {
    hide RatesAt, BusyHour, Mean;
    BusyBucket(volume / 3600.0, volume);
  }

  lemma BusyProfile()
    ensures HourlyRates(BusyHour()).Some?
    ensures var rates := HourlyRates(BusyHour()).value;
            && |rates| == HOURS_PER_DAY
            && rates[0] * 3600.0 == 1.0 && rates[1] * 3600.0 == 8.0 && rates[2] * 3600.0 == 1.0
  {
    var c := BusyHour();
    BusyRates();
    SomeHour(c, HOURS_PER_DAY);
    hide HourMeans, RatesAt, HourRate, Mean;
    var missing := Mean(HourMeans(c, HOURS_PER_DAY));
    BusyHourRate(0, 1.0, missing);
    BusyHourRate(1, 8.0, missing);
    BusyHourRate(2, 1.0, missing);
  }

  lemma BusyForecast()
    ensures Forecast(Some(BusyHour()), 3, 3600.0, 0) == Success([1.0, 8.0, 1.0])
    ensures Sum([1.0, 8.0, 1.0]) == 10.0
  {
    hide HourlyRates, HourOf, Midpoint, Sum, BusyHour;
    SumOfThree(1.0, 8.0, 1.0);
    HourOfEach();
    BusyProfile();
    assert Buckets(HourlyRates(BusyHour()).value, 0, 3600.0, 3) == [1.0, 8.0, 1.0];
  }

  lemma SumOfThree(x: real, y: real, z: real)
    ensures Sum([x]) == x && Sum([x, y]) == x + y && Sum([x, y, z]) == x + y + z
  {
    assert [x][..0] == [] && [x, y][..1] == [x] && [x, y, z][..2] == [x, y];
  }

  lemma BusyFractions()
    requires Sum([1.0, 8.0, 1.0]) > 0.0
    ensures Fractions([1.0, 8.0, 1.0]) == [0.0, 0.1, 0.9, 1.0]
  {
    var v := [1.0, 8.0, 1.0];
    SumOfThree(1.0, 8.0, 1.0);
    assert v[..0] == [] && v[..1] == [1.0] && v[..2] == [1.0, 8.0];
    hide Sum;
    SumZero(v[..0]);
  }

  lemma BusySchedule(f: Elementary)
    requires Lawful(f)
    ensures BuildSchedule(f, Ten().params, Some([0.0, 0.1, 0.9, 1.0])) == Success([1.0, 8.0, 1.0])
  {
    var p := Ten().params;
    var fractions := [0.0, 0.1, 0.9, 1.0];
    assert Tau(p) == 3600.0 && EtaTilde(p) == 1.0;
    KappaPositive(f, p);
    assert Urgency(f, p) == 0.0;
    assert Holdings(f, fractions, 0.0) == [1.0, 0.9, 0.1, 0.0];
    assert Slices([1.0, 0.9, 0.1, 0.0], 10.0) == [1.0, 8.0, 1.0];
    assert TradeSizes(f, p, fractions) == [1.0, 8.0, 1.0];
    assert Rising(fractions);
    hide Lawful, Kappa, TradeSizes, Slices, Holdings;
  }

  lemma TenCreated(f: Elementary) returns (s: State)
    requires Lawful(f)
    ensures Create(f, Ten()) == Success(s) && |s.schedule| == 3 && s.interval == 3600.0
    ensures s == State(Ten(), s.schedule, 3600.0, false, 0, [], [], [], 0.0, None, None, 0, PA.Running, None)
  {
    var p := Ten().params;
    assert Tau(p) == 3600.0 && EtaTilde(p) == 1.0;
    CreateSound(f, Ten());
    ZeroRiskIsEven(f, p);
    hide BuildSchedule, Lawful;
    s := Create(f, Ten()).value;
  }

  // The world once the slices follow the volumes and the first is sent.
  function FirstSent(): World {
    World(State(Ten(), [1.0, 8.0, 1.0], 3600.0, true, 1, [0], [], [1.0], 0.0, Some(0.0), Some(0.0), 0,
                PA.Running, None),
          [Working], [0.0], 0.0, false, 0.0, 0.0, false, false)
  }

  lemma ResolvesBusy(f: Elementary, s: State)
    requires Lawful(f) && |s.schedule| == 3
    requires s == State(Ten(), s.schedule, 3600.0, false, 0, [], [], [], 0.0, None, None, 0, PA.Running, None)
    ensures Resolve(f, s, Some(BusyHour()), 0) == s.(resolved := true, schedule := [1.0, 8.0, 1.0])
  {
    hide Forecast, Fractions, BuildSchedule, Lawful, BusyHour, Sum;
    BusyForecast();
    BusyFractions();
    BusySchedule(f);
    assert IntervalFor(10800.0, [1.0, 8.0, 1.0]) == 3600.0;
  }

  lemma SendsFirst(f: Elementary, s: State)
    requires Lawful(f) && |s.schedule| == 3
    requires s == State(Ten(), s.schedule, 3600.0, false, 0, [], [], [], 0.0, None, None, 0, PA.Running, None)
    ensures Legal(f, Start(s, 0.0), OlderFails()[0]) && Next(f, Start(s, 0.0), OlderFails()[0]) == FirstSent()
  {
    hide Resolve, BusyHour, Lawful, LiveExecuted;
    ResolvesBusy(f, s);
  }

  function SecondSent(): World {
    var w := FirstSent();
    w.(exec := w.exec.(idx := 2, submitted := [0, 1], orders := [1.0, 8.0], lastSlice := Some(3600.0)),
       outcome := [Working, Working], times := [0.0, 3600.0], clock := 3600.0)
  }

  function FirstFailed(): World {
    var w := SecondSent();
    w.(exec := w.exec.(idx := 1, submitted := [1], failed := [0], retries := 1),
       outcome := [Unfilled, Working], drift := 7.0, older := true)
  }

  function SecondAgain(): World {
    var w := FirstFailed();
    w.(exec := w.exec.(idx := 2, submitted := [1, 2], orders := [1.0, 8.0, 8.0], lastSlice := Some(7200.0)),
       outcome := [Unfilled, Working, Working], times := [0.0, 3600.0, 7200.0], clock := 7200.0)
  }

  lemma SendsSecond(f: Elementary)
    requires Lawful(f)
    ensures Legal(f, FirstSent(), OlderFails()[1]) && Next(f, FirstSent(), OlderFails()[1]) == SecondSent()
  {
    hide Lawful;
  }

  lemma FailsFirst(f: Elementary)
    requires Lawful(f)
    ensures Legal(f, SecondSent(), OlderFails()[2]) && Next(f, SecondSent(), OlderFails()[2]) == FirstFailed()
  {
    hide Lawful;
    assert Without([0, 1], 0) == [1];
  }

  lemma SendsAgain(f: Elementary)
    requires Lawful(f)
    ensures Legal(f, FirstFailed(), OlderFails()[3]) && Next(f, FirstFailed(), OlderFails()[3]) == SecondAgain()
  {
    hide Lawful;
  }

  /** The code breaks its total here: 1, 8 and 1 of 10 are due; the first order fails when
      the second is already working, and the second slice is sent again: 16 are in flight. */
  lemma OlderFailureOvertrades(f: Elementary) returns (w: World)
    requires Lawful(f)
    ensures Reaches(f, Ten(), OlderFails(), w)
    ensures w.exec.orders == [1.0, 8.0, 8.0] && w.outcome == [Unfilled, Working, Working]
    ensures Committed(w) == 16.0 && w.exec.cfg.params.total == 10.0
  {
    hide Next, Legal, Lawful, Create, Committed, BusyHour;
    var es := OlderFails();
    var s := TenCreated(f);
    SendsFirst(f, s);
    SendsSecond(f);
    FailsFirst(f);
    SendsAgain(f);
    w := SecondAgain();
    RunOfFour(f, Start(s, 0.0), es, FirstSent(), SecondSent(), FirstFailed(), w);
    AgainCommitted();
  }

  lemma AgainCommitted()
    ensures Committed(SecondAgain()) == 16.0
  {
    SumOfThree(0.0, 8.0, 8.0);
    assert InFlight(SecondAgain().outcome, SecondAgain().exec.orders) == [0.0, 8.0, 8.0];
  }

  lemma RunOfFour(f: Elementary, w0: World, es: seq<Event>, w1: World, w2: World, w3: World, w4: World)
    requires Lawful(f) && |es| == 4
    requires Legal(f, w0, es[0]) && w1 == Next(f, w0, es[0])
    requires Legal(f, w1, es[1]) && w2 == Next(f, w1, es[1])
    requires Legal(f, w2, es[2]) && w3 == Next(f, w2, es[2])
    requires Legal(f, w3, es[3]) && w4 == Next(f, w3, es[3])
    ensures LegalRun(f, w0, es) && RunOf(f, w0, es) == w4
  {
    hide Next, Legal, Lawful;
    var s1 := es[1..];
    var s2 := s1[1..];
    var s3 := s2[1..];
    assert LegalRun(f, w4, s3[1..]) && RunOf(f, w4, s3[1..]) == w4;
    assert LegalRun(f, w3, s3) && RunOf(f, w3, s3) == w4;
    assert LegalRun(f, w2, s2) && RunOf(f, w2, s2) == w4;
    assert LegalRun(f, w1, s1) && RunOf(f, w1, s1) == w4;
  }
}
