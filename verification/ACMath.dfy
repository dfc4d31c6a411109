/**
 Almgren-Chriss schedule arithmetic: holdings along the closed-form trajectory, the slices
 they give, and the merging of slices below a minimum size.
 */
module ACMath {
  import opened Common

  // ---- Elementary functions -------------------------------------------------------------

  // The mathematical exp and sqrt, known only by their laws.
  datatype Elementary = Elementary(exp: real -> real, sqrt: real -> real)

  ghost predicate ExpAdds(exp: real -> real, x: real, y: real) { exp(x + y) == exp(x) * exp(y) }

  ghost predicate ExpGrows(exp: real -> real, x: real, y: real) { x < y ==> exp(x) < exp(y) }

  ghost predicate IsRoot(sqrt: real -> real, x: real) {
    x >= 0.0 ==> sqrt(x) >= 0.0 && sqrt(x) * sqrt(x) == x
  }

  ghost predicate Lawful(f: Elementary) {
    && f.exp(0.0) == 1.0
    && (forall x, y {:trigger ExpAdds(f.exp, x, y)} :: ExpAdds(f.exp, x, y))
    && (forall x, y {:trigger ExpGrows(f.exp, x, y)} :: ExpGrows(f.exp, x, y))
    && (forall x {:trigger IsRoot(f.sqrt, x)} :: IsRoot(f.sqrt, x))
  }

  // ---- The schedule -----------------------------------------------------------------------

  datatype Params = Params(
    total: real, duration: real, intervals: int, riskAversion: real, volatility: real,
    eta: real, gamma: real, minSize: Option<real>)

  // sinh(a * u) / sinh(a), tending to u as a tends to 0.
  function SinhRatio(f: Elementary, u: real, a: real): real
    requires Lawful(f)
  {
    if a <= 0.0 then u
    else
      assert f.exp(-2.0 * a) < 1.0 by { assert ExpGrows(f.exp, -2.0 * a, 0.0); }
      (f.exp(a * (u - 1.0)) - f.exp(-a * (u + 1.0))) / (1.0 - f.exp(-2.0 * a))
  }

  function Tau(p: Params): real
    requires p.intervals > 0
  {
    p.duration / p.intervals as real
  }

  function EtaTilde(p: Params): real
    requires p.intervals > 0
  {
    p.eta - 0.5 * p.gamma * Tau(p)
  }

  function RiskRatio(p: Params): real
    requires p.intervals > 0 && EtaTilde(p) > 0.0
  {
    p.riskAversion * (p.volatility * p.volatility) / EtaTilde(p)
  }

  function Kappa(f: Elementary, p: Params): real
    requires p.intervals > 0 && EtaTilde(p) > 0.0
  {
    f.sqrt(RiskRatio(p))
  }

  function ClockFractions(n: int): seq<real>
    requires n > 0
  {
    seq(n + 1, j => j as real / n as real)
  }

  predicate Rising(fractions: seq<real>) {
    forall j :: 0 <= j < |fractions| - 1 ==> 0.0 <= fractions[j] <= fractions[j + 1]
  }

  const TOLERANCE: real := 0.000000001

  function Holdings(f: Elementary, fractions: seq<real>, a: real): seq<real>
    requires Lawful(f)
  {
    seq(|fractions|, j requires 0 <= j < |fractions| => SinhRatio(f, 1.0 - fractions[j], a))
  }

  // One slice per interval; the last one takes whatever the others leave of the total.
  function Slices(holdings: seq<real>, total: real): seq<real> {
    var n := |holdings| - 1;
    if n <= 0 then []
    else
      seq(n, j requires 0 <= j < n =>
        if j == n - 1 then total - (holdings[0] - holdings[n - 1]) * total
        else (holdings[j] - holdings[j + 1]) * total)
  }

  // The scaled horizon a = kappa * T.
  function Urgency(f: Elementary, p: Params): real
    requires p.intervals > 0 && EtaTilde(p) > 0.0
  {
    Kappa(f, p) * p.duration
  }

  // The slices along given cumulative fractions, before merging.
  function TradeSizes(f: Elementary, p: Params, fractions: seq<real>): seq<real>
    requires Lawful(f) && p.intervals > 0 && EtaTilde(p) > 0.0
  {
    Slices(Holdings(f, fractions, Urgency(f, p)), p.total)
  }

  function BuildSchedule(f: Elementary, p: Params, volumeFractions: Option<seq<real>>): Result<seq<real>>
    requires Lawful(f)
  {
    if p.duration <= 0.0 then Failure("duration_seconds must be positive")
    else if p.intervals <= 0 then Failure("num_intervals must be positive")
    else if p.riskAversion < 0.0 then Failure("risk_aversion must be non-negative")
    else if p.volatility < 0.0 then Failure("volatility must be non-negative")
    else if EtaTilde(p) <= 0.0 then Failure("eta - 0.5*gamma*tau must be positive")
    else
      var fractions := if volumeFractions.None? then ClockFractions(p.intervals) else volumeFractions.value;
      if fractions == [] then Failure("list index out of range")
      else if volumeFractions.Some? && (!Rising(fractions) || fractions[|fractions| - 1] > 1.0 + TOLERANCE) then
        Failure("cumulative_volume_fractions must be non-decreasing, within [0, 1]")
      else Success(Merge(TradeSizes(f, p, fractions), p.minSize))
  }

  // ---- Merging --------------------------------------------------------------------------------

  // The slices emitted so far and the amount carried forward.
  function MergeLoop(sizes: seq<real>, minSize: real): (seq<real>, real) {
    if sizes == [] then ([], 0.0)
    else
      var before := MergeLoop(sizes[..|sizes| - 1], minSize);
      var acc := before.1 + sizes[|sizes| - 1];
      if acc >= minSize then (before.0 + [acc], 0.0) else (before.0, acc)
  }

  function Merge(sizes: seq<real>, minSize: Option<real>): seq<real> {
    if minSize.None? || minSize.value <= 0.0 then sizes
    else
      var r := MergeLoop(sizes, minSize.value);
      if r.1 <= 0.0 then r.0
      else if r.0 == [] then [r.1]
      else r.0[|r.0| - 1 := r.0[|r.0| - 1] + r.1]
  }

  // `merged` groups consecutive slices from the start: the cuts are where groups begin and end.
  ghost predicate IsGroup(sizes: seq<real>, x: real, from: nat, to: nat) {
    from < to <= |sizes| && x == Sum(sizes[from..to])
  }

  ghost predicate Groups(sizes: seq<real>, merged: seq<real>, cuts: seq<nat>) {
    && |cuts| == |merged| + 1 && cuts[0] == 0 && cuts[|merged|] <= |sizes|
    && forall k :: 0 <= k < |merged| ==> IsGroup(sizes, merged[k], cuts[k], cuts[k + 1])
  }

  ghost predicate Coarsens(sizes: seq<real>, merged: seq<real>, cuts: seq<nat>) {
    Groups(sizes, merged, cuts) && cuts[|merged|] == |sizes|
  }

  // Slices from `from` up to anywhere before or at `to` stay below the minimum.
  ghost predicate Below(sizes: seq<real>, from: nat, to: nat, minSize: real) {
    from <= to <= |sizes| && forall t :: from < t <= to ==> Sum(sizes[from..t]) < minSize
  }

  // A group ends with the slice that brings it to the minimum.
  ghost predicate Stops(sizes: seq<real>, from: nat, to: nat, minSize: real) {
    from < to <= |sizes| && Sum(sizes[from..to]) >= minSize && Below(sizes, from, to - 1, minSize)
  }

  // Each group but the last ends as soon as it can. The last one reached the minimum at
  // `reach`, and what follows stays below it; or nothing ever reached it.
  ghost predicate Greedy(sizes: seq<real>, cuts: seq<nat>, reach: nat, minSize: real) {
    var m := |cuts| - 1;
    && m >= 1 && (forall k :: 0 <= k < m - 1 ==> Stops(sizes, cuts[k], cuts[k + 1], minSize))
    && ((Stops(sizes, cuts[m - 1], reach, minSize) && Below(sizes, reach, |sizes|, minSize))
        || (m == 1 && cuts[0] == 0 && Below(sizes, 0, |sizes|, minSize)))
  }

  lemma BelowLonger(init: seq<real>, x: real, from: nat, to: nat, minSize: real)
    requires to <= |init|
    ensures Below(init, from, to, minSize) ==> Below(init + [x], from, to, minSize)
    ensures Stops(init, from, to, minSize) ==> Stops(init + [x], from, to, minSize)
  {
    assert forall t :: from <= t <= |init| ==> (init + [x])[from..t] == init[from..t];
  }

  // The groups closed so far, and what is carried on from the last of them.
  ghost predicate Closing(sizes: seq<real>, cuts: seq<nat>, minSize: real) {
    && cuts != [] && Below(sizes, cuts[|cuts| - 1], |sizes|, minSize)
    && forall k :: 0 <= k < |cuts| - 1 ==> Stops(sizes, cuts[k], cuts[k + 1], minSize)
  }

  lemma ClosingStep(init: seq<real>, x: real, minSize: real, cuts: seq<nat>)
    requires Closing(init, cuts, minSize)
    ensures var sizes := init + [x]; var c := cuts[|cuts| - 1];
            Closing(sizes, if Sum(sizes[c..]) >= minSize then cuts + [|sizes|] else cuts, minSize)
  {
    hide Below, Stops, Sum;
    var sizes, m := init + [x], |cuts| - 1;
    var c := cuts[m];
    forall k | 0 <= k < m ensures Stops(sizes, cuts[k], cuts[k + 1], minSize) {
      StopsInside(init, cuts[k], cuts[k + 1], minSize);
      BelowLonger(init, x, cuts[k], cuts[k + 1], minSize);
    }
    LastClosing(init, x, minSize, c);
  }

  lemma StopsInside(sizes: seq<real>, from: nat, to: nat, minSize: real)
    requires Stops(sizes, from, to, minSize)
    ensures to <= |sizes|
  {
  }

  lemma LastClosing(init: seq<real>, x: real, minSize: real, c: nat)
    requires Below(init, c, |init|, minSize)
    ensures c <= |init|
    ensures var sizes := init + [x];
            if Sum(sizes[c..]) >= minSize then
              Stops(sizes, c, |sizes|, minSize) && Below(sizes, |sizes|, |sizes|, minSize)
            else Below(sizes, c, |sizes|, minSize)
  {
    hide Sum;
    var sizes := init + [x];
    BelowLonger(init, x, c, |init|, minSize);
    assert sizes[c..] == sizes[c..|sizes|];
  }

  lemma GroupsLonger(init: seq<real>, x: real, merged: seq<real>, cuts: seq<nat>)
    requires Groups(init, merged, cuts)
    ensures Groups(init + [x], merged, cuts)
  {
    var sizes := init + [x];
    forall k | 0 <= k < |merged| ensures IsGroup(sizes, merged[k], cuts[k], cuts[k + 1]) {
      assert IsGroup(init, merged[k], cuts[k], cuts[k + 1]);
      assert sizes[cuts[k]..cuts[k + 1]] == init[cuts[k]..cuts[k + 1]];
    }
  }

  lemma GroupsAppend(sizes: seq<real>, merged: seq<real>, cuts: seq<nat>)
    requires Groups(sizes, merged, cuts) && cuts[|merged|] < |sizes|
    ensures Coarsens(sizes, merged + [Sum(sizes[cuts[|merged|]..])], cuts + [|sizes|])
  {
    var m := |merged|;
    var last := Sum(sizes[cuts[m]..]);
    var all := merged + [last];
    assert sizes[cuts[m]..|sizes|] == sizes[cuts[m]..];
    forall k | 0 <= k <= m
      ensures IsGroup(sizes, all[k], (cuts + [|sizes|])[k], (cuts + [|sizes|])[k + 1])
    {
      if k < m { assert IsGroup(sizes, merged[k], cuts[k], cuts[k + 1]); }
    }
  }

  // Extending the last group to the end adds the carried amount to it.
  lemma GroupsExtend(sizes: seq<real>, merged: seq<real>, cuts: seq<nat>)
    requires merged != [] && Groups(sizes, merged, cuts)
    ensures var m := |merged|;
            Coarsens(sizes, merged[m - 1 := merged[m - 1] + Sum(sizes[cuts[m]..])], cuts[m := |sizes|])
  {
    var m := |merged|;
    var longer := cuts[m := |sizes|];
    var b, c := cuts[m - 1], cuts[m];
    assert IsGroup(sizes, merged[m - 1], b, c);
    assert sizes[b..|sizes|] == sizes[b..c] + sizes[c..];
    SumConcat(sizes[b..c], sizes[c..]);
    var all := merged[m - 1 := merged[m - 1] + Sum(sizes[c..])];
    assert IsGroup(sizes, merged[m - 1], b, c);
    forall k | 0 <= k < m ensures IsGroup(sizes, all[k], longer[k], longer[k + 1]) {
      if k < m - 1 { assert IsGroup(sizes, merged[k], cuts[k], cuts[k + 1]); }
    }
  }

  lemma {:induction false} MergeLoopSums(sizes: seq<real>, minSize: real)
    requires NonNegative(sizes) && minSize > 0.0
    ensures var r := MergeLoop(sizes, minSize);
            && 0.0 <= r.1 < minSize
            && (forall k :: 0 <= k < |r.0| ==> r.0[k] >= minSize)
            && Sum(r.0) + r.1 == Sum(sizes)
  {
    if sizes != [] {
      var n := |sizes| - 1;
      MergeLoopSums(sizes[..n], minSize);
      var before := MergeLoop(sizes[..n], minSize);
      SumAppend(before.0, before.1 + sizes[n]);
    }
  }

  lemma {:induction false} MergeLoopGroups(sizes: seq<real>, minSize: real) returns (cuts: seq<nat>)
    ensures var r := MergeLoop(sizes, minSize);
            Groups(sizes, r.0, cuts) && r.1 == Sum(sizes[cuts[|r.0|]..]) && Closing(sizes, cuts, minSize)
            && (r.0 == [] ==> r.1 == Sum(sizes))
  {
    if sizes == [] {
      cuts := [0];
    } else {
      hide Closing, Sum, IsGroup;
      var n := |sizes| - 1;
      cuts := MergeLoopGroups(sizes[..n], minSize);
      var before := MergeLoop(sizes[..n], minSize);
      assert sizes == sizes[..n] + [sizes[n]];
      GroupStep(sizes[..n], sizes[n], minSize, before.0, before.1, cuts);
      ClosingStep(sizes[..n], sizes[n], minSize, cuts);
      if before.1 + sizes[n] >= minSize { cuts := cuts + [|sizes|]; }
    }
  }

  // One more slice: carried forward, or closing a group.
  lemma GroupStep(init: seq<real>, x: real, minSize: real, merged: seq<real>, acc: real, cuts: seq<nat>)
    requires Groups(init, merged, cuts) && acc == Sum(init[cuts[|merged|]..])
    ensures var sizes := init + [x];
            && |cuts| == |merged| + 1 && cuts[|merged|] <= |init| && acc + x == Sum(sizes[cuts[|merged|]..])
            && if acc + x >= minSize then
                 Coarsens(sizes, merged + [acc + x], cuts + [|sizes|]) && Sum(sizes[|sizes|..]) == 0.0
               else Groups(sizes, merged, cuts)
  {
    var sizes := init + [x];
    var c := cuts[|merged|];
    GroupsLonger(init, x, merged, cuts);
    assert sizes[c..] == init[c..] + [x];
    SumAppend(init[c..], x);
    if acc + x >= minSize { GroupsAppend(sizes, merged, cuts); }
  }

  /** Merging non-negative slices keeps their sum and their order: the result groups
      consecutive slices, each group ending as soon as it reaches the minimum and the last
      one taking what is left, is empty only when there is nothing to trade, and no slice is
      below the minimum unless a single one is left. */
  lemma MergeSound(sizes: seq<real>, minSize: real) returns (cuts: seq<nat>, reach: nat)
    requires NonNegative(sizes) && minSize > 0.0
    ensures var merged := Merge(sizes, Some(minSize));
            && Sum(merged) == Sum(sizes)
            && (merged != [] <==> Sum(sizes) > 0.0)
            && (merged != [] ==> Coarsens(sizes, merged, cuts) && Greedy(sizes, cuts, reach, minSize))
            && (|merged| > 1 ==> forall k :: 0 <= k < |merged| ==> merged[k] >= minSize)
            && NonNegative(merged)
  {
    hide MergeLoop, Stops, Below, IsGroup;
    var first := MergeLoopGroups(sizes, minSize);
    MergeLoopSums(sizes, minSize);
    var r := MergeLoop(sizes, minSize);
    if r.0 != [] {
      cuts := MergedTail(sizes, minSize, r.0, r.1, first);
      reach := first[|r.0|];
    } else {
      cuts, reach := [0, |sizes|], 0;
      OneGroup(sizes, r.1);
    }
  }

  lemma OneGroup(sizes: seq<real>, acc: real)
    requires acc == Sum(sizes)
    ensures acc > 0.0 ==> Coarsens(sizes, [acc], [0, |sizes|])
    ensures Sum([acc]) == acc && Sum([]) == 0.0
  {
    assert sizes[0..|sizes|] == sizes;
    SumAppend([], acc);
    assert [] + [acc] == [acc];
    assert acc > 0.0 ==> IsGroup(sizes, acc, 0, |sizes|);
  }

  lemma MergedTail(sizes: seq<real>, minSize: real, merged: seq<real>, acc: real, cuts: seq<nat>)
    returns (longer: seq<nat>)
    requires merged != [] && Groups(sizes, merged, cuts) && minSize > 0.0
    requires acc == Sum(sizes[cuts[|merged|]..]) && acc >= 0.0
    requires forall k :: 0 <= k < |merged| ==> merged[k] >= minSize
    ensures var all := merged[|merged| - 1 := merged[|merged| - 1] + acc];
            && longer == cuts[|merged| := |sizes|]
            && Coarsens(sizes, all, longer) && Sum(all) == Sum(merged) + acc && Sum(all) > 0.0
            && (forall k :: 0 <= k < |all| ==> all[k] >= minSize)
            && (acc == 0.0 ==> all == merged)
  {
    var m := |merged|;
    longer := cuts[m := |sizes|];
    GroupsExtend(sizes, merged, cuts);
    SumUpdate(merged, m - 1, merged[m - 1] + acc);
    SumNonNegative(merged);
  }
}
