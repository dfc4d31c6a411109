/** The schedule builder as it runs: loops over holdings and slices. */
module ACSchedule {
  import opened Common
  import opened ACMath
  import opened ACShape

  // Slice sizes from holdings; the last slice absorbs what rounding would lose.
  method BuildSizes(holdings: seq<real>, total: real) returns (sizes: seq<real>)
    requires holdings != []
    ensures sizes == Slices(holdings, total)
  {
    sizes := [];
    var cumulative := 0.0;
    var n := |holdings| - 1;
    ghost var all := Slices(holdings, total);
    for j := 1 to n + 1
      invariant sizes == all[..j - 1]
      invariant j <= n ==> cumulative == (holdings[0] - holdings[j - 1]) * total
    {
      var size;
      if j == n {
        size := total - cumulative;
        assert size == all[n - 1];
      } else {
        size := (holdings[j - 1] - holdings[j]) * total;
        assert size == all[j - 1];
        Distribute(holdings[0] - holdings[j - 1], holdings[j - 1] - holdings[j], total);
        cumulative := cumulative + size;
      }
      assert all[..j] == all[..j - 1] + [all[j - 1]];
      sizes := sizes + [size];
    }
  }

  // Carries slices below the minimum forward into the next one.
  method MergeMinSize(sizes: seq<real>, minSize: Option<real>) returns (merged: seq<real>)
    ensures merged == Merge(sizes, minSize)
  {
    if minSize.None? || minSize.value <= 0.0 { return sizes; }
    merged := [];
    var acc := 0.0;
    for i := 0 to |sizes|
      invariant (merged, acc) == MergeLoop(sizes[..i], minSize.value)
    {
      assert sizes[..i + 1][..i] == sizes[..i];
      acc := acc + sizes[i];
      if acc >= minSize.value {
        merged := merged + [acc];
        acc := 0.0;
      }
    }
    assert sizes[..|sizes|] == sizes;
    if acc > 0.0 {
      if merged != [] {
        merged := merged[|merged| - 1 := merged[|merged| - 1] + acc];
      } else {
        merged := [acc];
      }
    }
  }

  method Build(f: Elementary, p: Params, volumeFractions: Option<seq<real>>) returns (r: Result<seq<real>>)
    requires Lawful(f)
    ensures r == BuildSchedule(f, p, volumeFractions)
  {
    hide Slices, Merge, Urgency, Kappa, Lawful, Tau;
    if p.duration <= 0.0 { return Failure("duration_seconds must be positive"); }
    if p.intervals <= 0 { return Failure("num_intervals must be positive"); }
    if p.riskAversion < 0.0 { return Failure("risk_aversion must be non-negative"); }
    if p.volatility < 0.0 { return Failure("volatility must be non-negative"); }
    if EtaTilde(p) <= 0.0 { return Failure("eta - 0.5*gamma*tau must be positive"); }
    var fractions := ClockFractions(p.intervals);
    if volumeFractions.Some? {
      fractions := volumeFractions.value;
      if fractions == [] { return Failure("list index out of range"); }
      if !Rising(fractions) || fractions[|fractions| - 1] > 1.0 + TOLERANCE {
        return Failure("cumulative_volume_fractions must be non-decreasing, within [0, 1]");
      }
    }
    assert fractions != [];
    var sizes := BuildSizes(Holdings(f, fractions, Urgency(f, p)), p.total);
    var merged := MergeMinSize(sizes, p.minSize);
    r := Success(merged);
  }
}
