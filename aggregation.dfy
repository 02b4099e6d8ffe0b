/**
  The per-group metric folds. Each sample pairs its arrays index by index, cut
  to the shortest of them, and the group total is the sum over its samples.
  Each fold is specified by a function that sums prefixes and implemented by a
  method whose loops add one paired position at a time. Results are kept as
  numerator and denominator; the program prints 100 × numerator / denominator
  (or numerator / denominator) in `f32`.
*/
module Aggregation {
  import opened SpanMerge

  function Min(a: nat, b: nat): nat {
    if a <= b then a else b
  }

  function Max(a: nat, b: nat): nat {
    if a <= b then b else a
  }

  function Sum(s: seq<nat>): nat {
    if s == [] then 0 else Sum(s[..|s| - 1]) + s[|s| - 1]
  }

  function SumReal(s: seq<real>): real {
    if s == [] then 0.0 else SumReal(s[..|s| - 1]) + s[|s| - 1]
  }

  /** The largest element, or 0 for none. */
  function MaxOf(s: seq<nat>): nat {
    if s == [] then 0 else Max(MaxOf(s[..|s| - 1]), s[|s| - 1])
  }

  lemma SumStep(s: seq<nat>, j: nat)
    requires j < |s|
    ensures Sum(s[..j + 1]) == Sum(s[..j]) + s[j]
  {
    assert s[..j + 1][..j] == s[..j];
  }

  lemma SumRealStep(s: seq<real>, j: nat)
    requires j < |s|
    ensures SumReal(s[..j + 1]) == SumReal(s[..j]) + s[j]
  {
    assert s[..j + 1][..j] == s[..j];
  }

  lemma MaxOfStep(s: seq<nat>, j: nat)
    requires j < |s|
    ensures MaxOf(s[..j + 1]) == Max(MaxOf(s[..j]), s[j])
  {
    assert s[..j + 1][..j] == s[..j];
  }

  /** The maximum bounds every element and, for a non-empty sequence, is one of them. */
  lemma {:induction false} MaxOfIsMaximum(s: seq<nat>)
    ensures forall j | 0 <= j < |s| :: s[j] <= MaxOf(s)
    ensures s == [] ==> MaxOf(s) == 0
    ensures s != [] ==> exists j :: 0 <= j < |s| && s[j] == MaxOf(s)
  {
    if s != [] {
      var init := s[..|s| - 1];
      MaxOfIsMaximum(init);
      assert forall j | 0 <= j < |init| :: s[j] == init[j];
      if init != [] && MaxOf(init) >= s[|s| - 1] {
        var j :| 0 <= j < |init| && init[j] == MaxOf(init);
        assert s[j] == MaxOf(s);
      }
    }
  }

  lemma {:induction false} SumMonotone(a: seq<nat>, b: seq<nat>)
    requires |a| == |b|
    requires forall j | 0 <= j < |a| :: a[j] <= b[j]
    ensures Sum(a) <= Sum(b)
  {
    if a != [] {
      SumMonotone(a[..|a| - 1], b[..|b| - 1]);
    }
  }

  datatype Ratio = Ratio(numerator: nat, denominator: nat) {
    function Plus(other: Ratio): Ratio {
      Ratio(numerator + other.numerator, denominator + other.denominator)
    }
  }

  // ---------------------------------------------------------------- occupancy

  /** One (kernel, sample) pair: the sample's occupancy and its kernel's cycles between samples. */
  datatype OccupancySample = OccupancySample(occupancy: seq<nat>, cycles: seq<nat>) {
    function Paired(): nat {
      Min(|occupancy|, |cycles|)
    }

    function Contribution(): Ratio {
      Ratio(Sum(occupancy[..Paired()]), Sum(cycles[..Paired()]))
    }
  }

  /** Occupancy over cycles, summed over the positions each sample pairs. */
  function OccupancyTotals(samples: seq<OccupancySample>): Ratio {
    if samples == [] then Ratio(0, 0)
    else OccupancyTotals(samples[..|samples| - 1]).Plus(samples[|samples| - 1].Contribution())
  }

  lemma OccupancyPrefix(samples: seq<OccupancySample>, k: nat)
    requires k < |samples|
    ensures OccupancyTotals(samples[..k + 1]) == OccupancyTotals(samples[..k]).Plus(samples[k].Contribution())
  {
    assert samples[..k + 1][..k] == samples[..k];
  }

  /** The sums over the positions one sample pairs. */
  method SampleOccupancy(s: OccupancySample) returns (contribution: Ratio)
    ensures contribution == s.Contribution()
  {
    var paired := s.Paired();
    var occupancySum, cyclesSum := 0, 0;
    var j := 0;
    while j < paired
      invariant j <= paired
      invariant occupancySum == Sum(s.occupancy[..j]) && cyclesSum == Sum(s.cycles[..j])
    {
      SumStep(s.occupancy, j);
      SumStep(s.cycles, j);
      occupancySum, cyclesSum := occupancySum + s.occupancy[j], cyclesSum + s.cycles[j];
      j := j + 1;
    }
    contribution := Ratio(occupancySum, cyclesSum);
  }

  method ComputeOccupancy(samples: seq<OccupancySample>) returns (totals: Ratio)
    ensures totals == OccupancyTotals(samples)
  {
    totals := Ratio(0, 0);
    for k := 0 to |samples|
      invariant totals == OccupancyTotals(samples[..k])
    {
      var contribution := SampleOccupancy(samples[k]);
      OccupancyPrefix(samples, k);
      totals := totals.Plus(contribution);
    }
    assert samples[..|samples|] == samples;
  }

  /** The total over a group is the total over any split of it: the fold does not depend on grouping. */
  lemma {:induction false} OccupancyConcat(a: seq<OccupancySample>, b: seq<OccupancySample>)
    ensures OccupancyTotals(a + b) == OccupancyTotals(a).Plus(OccupancyTotals(b))
  {
    if b == [] {
      assert a + b == a;
    } else {
      var init := b[..|b| - 1];
      var ab := a + b;
      assert ab[..|ab| - 1] == a + init;
      assert ab[|ab| - 1] == b[|b| - 1];
      assert OccupancyTotals(ab) == OccupancyTotals(a + init).Plus(b[|b| - 1].Contribution());
      OccupancyConcat(a, init);
    }
  }

  /** Occupancy samples beyond the end of the cycles array are ignored, and vice versa. */
  lemma OccupancyCutToShorter(occupancy: seq<nat>, cycles: seq<nat>, extra: seq<nat>)
    ensures |occupancy| >= |cycles| ==>
      OccupancyTotals([OccupancySample(occupancy + extra, cycles)]) == OccupancyTotals([OccupancySample(occupancy, cycles)])
    ensures |cycles| >= |occupancy| ==>
      OccupancyTotals([OccupancySample(occupancy, cycles + extra)]) == OccupancyTotals([OccupancySample(occupancy, cycles)])
  {
    assert [OccupancySample(occupancy + extra, cycles)][..0] == [];
    assert [OccupancySample(occupancy, cycles + extra)][..0] == [];
    assert [OccupancySample(occupancy, cycles)][..0] == [];
    if |occupancy| >= |cycles| {
      assert (occupancy + extra)[..|cycles|] == occupancy[..|cycles|];
    }
    if |cycles| >= |occupancy| {
      assert (cycles + extra)[..|occupancy|] == cycles[..|occupancy|];
    }
  }

  /** When no sample is busy for more cycles than elapsed, occupancy is at most 100 %. */
  lemma {:induction false} OccupancyAtMostCycles(samples: seq<OccupancySample>)
    requires forall k, j | 0 <= k < |samples| && 0 <= j < samples[k].Paired() :: samples[k].occupancy[j] <= samples[k].cycles[j]
    ensures OccupancyTotals(samples).numerator <= OccupancyTotals(samples).denominator
  {
    if samples != [] {
      var init, s := samples[..|samples| - 1], samples[|samples| - 1];
      assert OccupancyTotals(init).numerator <= OccupancyTotals(init).denominator by {
        assert forall k | 0 <= k < |init| :: init[k] == samples[k];
        OccupancyAtMostCycles(init);
      }
      var m := s.Paired();
      assert Sum(s.occupancy[..m]) <= Sum(s.cycles[..m]) by {
        var occupancy, cycles := s.occupancy[..m], s.cycles[..m];
        forall j | 0 <= j < m ensures occupancy[j] <= cycles[j] {
          assert s.occupancy[j] <= s.cycles[j];
        }
        SumMonotone(occupancy, cycles);
      }
      assert OccupancyTotals(samples) == OccupancyTotals(init).Plus(s.Contribution());
    }
  }

  /** Busy for 5, 10 and 0 of 10 cycles each, with a fourth occupancy sample that has no cycles: 15 of 30. */
  lemma OccupancyExample(s: OccupancySample)
    requires s == OccupancySample([5, 10, 0, 7], [10, 10, 10])
    ensures OccupancyTotals([s]) == Ratio(15, 30)
  {
    assert s.Paired() == 3;
    assert s.occupancy[..3] == [5, 10, 0];
    assert s.cycles[..3] == [10, 10, 10];
    assert Sum([5, 10, 0]) == 15 by {
      assert [5][..0] == [];
      assert [5, 10][..1] == [5];
      assert [5, 10, 0][..2] == [5, 10];
    }
    assert Sum([10, 10, 10]) == 30 by {
      assert [10][..0] == [];
      assert [10, 10][..1] == [10];
      assert [10, 10, 10][..2] == [10, 10];
    }
    assert [s][..0] == [];
  }

  // -------------------------------------------------------------------- stall

  datatype StallSample = StallSample(stall: seq<nat>, idle: seq<nat>, activity: seq<nat>, cycles: seq<nat>) {
    function Paired(): nat {
      Min(Min(Min(|stall|, |idle|), |activity|), |cycles|)
    }

    function Contribution(): StallTotals {
      var m := Paired();
      StallTotals(Sum(stall[..m]), Sum(idle[..m]), Sum(activity[..m]), Sum(cycles[..m]))
    }
  }

  /** Three numerators over one shared cycles denominator. */
  datatype StallTotals = StallTotals(stall: nat, idle: nat, activity: nat, cycles: nat) {
    function Plus(other: StallTotals): StallTotals {
      StallTotals(stall + other.stall, idle + other.idle, activity + other.activity, cycles + other.cycles)
    }
  }

  function StallTotalsOf(samples: seq<StallSample>): StallTotals {
    if samples == [] then StallTotals(0, 0, 0, 0)
    else StallTotalsOf(samples[..|samples| - 1]).Plus(samples[|samples| - 1].Contribution())
  }

  lemma StallPrefix(samples: seq<StallSample>, k: nat)
    requires k < |samples|
    ensures StallTotalsOf(samples[..k + 1]) == StallTotalsOf(samples[..k]).Plus(samples[k].Contribution())
  {
    assert samples[..k + 1][..k] == samples[..k];
  }

  /** The sums over the positions one sample pairs. */
  method SampleStall(s: StallSample) returns (totals: StallTotals)
    ensures totals == s.Contribution()
  {
    var paired := s.Paired();
    var stallSum, idleSum, activitySum, cyclesSum := 0, 0, 0, 0;
    var j := 0;
    while j < paired
      invariant j <= paired
      invariant stallSum == Sum(s.stall[..j]) && idleSum == Sum(s.idle[..j])
      invariant activitySum == Sum(s.activity[..j]) && cyclesSum == Sum(s.cycles[..j])
    {
      SumStep(s.stall, j);
      SumStep(s.idle, j);
      SumStep(s.activity, j);
      SumStep(s.cycles, j);
      stallSum, idleSum, activitySum, cyclesSum :=
        stallSum + s.stall[j], idleSum + s.idle[j], activitySum + s.activity[j], cyclesSum + s.cycles[j];
      j := j + 1;
    }
    totals := StallTotals(stallSum, idleSum, activitySum, cyclesSum);
  }

  method ComputeStall(samples: seq<StallSample>) returns (totals: StallTotals)
    ensures totals == StallTotalsOf(samples)
  {
    totals := StallTotals(0, 0, 0, 0);
    for k := 0 to |samples|
      invariant totals == StallTotalsOf(samples[..k])
    {
      var contribution := SampleStall(samples[k]);
      StallPrefix(samples, k);
      totals := totals.Plus(contribution);
    }
    assert samples[..|samples|] == samples;
  }

  /**
    Stall, idle and activity share one cycles denominator, and it is the
    occupancy denominator whenever each sample pairs as many positions for
    both folds.
  */
  lemma {:induction false} StallSharesOccupancyCycles(stalls: seq<StallSample>, occupancies: seq<OccupancySample>)
    requires |stalls| == |occupancies|
    requires forall k | 0 <= k < |stalls| :: stalls[k].cycles == occupancies[k].cycles && stalls[k].Paired() == occupancies[k].Paired()
    ensures StallTotalsOf(stalls).cycles == OccupancyTotals(occupancies).denominator
  {
    if stalls != [] {
      StallSharesOccupancyCycles(stalls[..|stalls| - 1], occupancies[..|occupancies| - 1]);
    }
  }

  // ------------------------------------------------------------ effectiveness

  datatype EffectivenessSample = EffectivenessSample(
    bandwidthEffective: seq<real>,
    averageBurstSize: seq<real>,
    cacheHit: seq<nat>,
    occupancy: seq<nat>)
  {
    function BurstPaired(): nat {
      Min(|bandwidthEffective|, |averageBurstSize|)
    }

    function CachePaired(): nat {
      Min(|cacheHit|, |occupancy|)
    }
  }

  /**
    Two folds: the number of (effective bandwidth, burst size) pairs with their
    sums, and the (cache hit, occupancy) sums with whether any such pair exists.
  */
  datatype EffectivenessTotals = EffectivenessTotals(
    numberOfSamples: nat,
    bandwidthEffectiveSum: real,
    averageBurstSizeSum: real,
    cacheHitPresent: bool,
    cacheHitSum: nat,
    occupancySum: nat)

  function EffectivenessOf(samples: seq<EffectivenessSample>): EffectivenessTotals {
    if samples == [] then EffectivenessTotals(0, 0.0, 0.0, false, 0, 0)
    else
      var rest := EffectivenessOf(samples[..|samples| - 1]);
      var s := samples[|samples| - 1];
      var m, c := s.BurstPaired(), s.CachePaired();
      EffectivenessTotals(
        rest.numberOfSamples + m,
        rest.bandwidthEffectiveSum + SumReal(s.bandwidthEffective[..m]),
        rest.averageBurstSizeSum + SumReal(s.averageBurstSize[..m]),
        rest.cacheHitPresent || c > 0,
        rest.cacheHitSum + Sum(s.cacheHit[..c]),
        rest.occupancySum + Sum(s.occupancy[..c]))
  }

  /** Extending a prefix by one sample adds that sample's pairs to each total. */
  lemma EffectivenessPrefix(samples: seq<EffectivenessSample>, k: nat)
    requires k < |samples|
    ensures var before, after, s := EffectivenessOf(samples[..k]), EffectivenessOf(samples[..k + 1]), samples[k];
      && after.numberOfSamples == before.numberOfSamples + s.BurstPaired()
      && after.bandwidthEffectiveSum == before.bandwidthEffectiveSum + SumReal(s.bandwidthEffective[..s.BurstPaired()])
      && after.averageBurstSizeSum == before.averageBurstSizeSum + SumReal(s.averageBurstSize[..s.BurstPaired()])
      && after.cacheHitPresent == (before.cacheHitPresent || s.CachePaired() > 0)
      && after.cacheHitSum == before.cacheHitSum + Sum(s.cacheHit[..s.CachePaired()])
      && after.occupancySum == before.occupancySum + Sum(s.occupancy[..s.CachePaired()])
  {
    assert samples[..k + 1][..k] == samples[..k];
  }

  /** One sample's (effective bandwidth, burst size) pairs, counted and summed. */
  method SampleBurst(s: EffectivenessSample) returns (count: nat, effectiveSum: real, burstSum: real)
    ensures count == s.BurstPaired()
    ensures effectiveSum == SumReal(s.bandwidthEffective[..s.BurstPaired()])
    ensures burstSum == SumReal(s.averageBurstSize[..s.BurstPaired()])
  {
    count, effectiveSum, burstSum := 0, 0.0, 0.0;
    while count < s.BurstPaired()
      invariant count <= s.BurstPaired()
      invariant effectiveSum == SumReal(s.bandwidthEffective[..count])
      invariant burstSum == SumReal(s.averageBurstSize[..count])
    {
      SumRealStep(s.bandwidthEffective, count);
      SumRealStep(s.averageBurstSize, count);
      effectiveSum, burstSum := effectiveSum + s.bandwidthEffective[count], burstSum + s.averageBurstSize[count];
      count := count + 1;
    }
  }

  /** The first fold: the (effective bandwidth, burst size) pairs, counted and summed. */
  method BurstFold(samples: seq<EffectivenessSample>) returns (count: nat, effectiveSum: real, burstSum: real)
    ensures count == EffectivenessOf(samples).numberOfSamples
    ensures effectiveSum == EffectivenessOf(samples).bandwidthEffectiveSum
    ensures burstSum == EffectivenessOf(samples).averageBurstSizeSum
  {
    count, effectiveSum, burstSum := 0, 0.0, 0.0;
    for k := 0 to |samples|
      invariant count == EffectivenessOf(samples[..k]).numberOfSamples
      invariant effectiveSum == EffectivenessOf(samples[..k]).bandwidthEffectiveSum
      invariant burstSum == EffectivenessOf(samples[..k]).averageBurstSizeSum
    {
      var pairs, effective, burst := SampleBurst(samples[k]);
      EffectivenessPrefix(samples, k);
      count, effectiveSum, burstSum := count + pairs, effectiveSum + effective, burstSum + burst;
    }
    assert samples[..|samples|] == samples;
  }

  /** One sample's (cache hit, occupancy) pairs, summed, and whether there is any. */
  method SampleCacheHit(s: EffectivenessSample) returns (present: bool, cacheHitSum: nat, occupancySum: nat)
    ensures present <==> s.CachePaired() > 0
    ensures cacheHitSum == Sum(s.cacheHit[..s.CachePaired()])
    ensures occupancySum == Sum(s.occupancy[..s.CachePaired()])
  {
    present, cacheHitSum, occupancySum := false, 0, 0;
    var j := 0;
    while j < s.CachePaired()
      invariant j <= s.CachePaired()
      invariant present == (j > 0)
      invariant cacheHitSum == Sum(s.cacheHit[..j]) && occupancySum == Sum(s.occupancy[..j])
    {
      SumStep(s.cacheHit, j);
      SumStep(s.occupancy, j);
      present, cacheHitSum, occupancySum := present || true, cacheHitSum + s.cacheHit[j], occupancySum + s.occupancy[j];
      j := j + 1;
    }
  }

  /** The second fold: the (cache hit, occupancy) pairs, summed, and whether there is any. */
  method CacheHitFold(samples: seq<EffectivenessSample>) returns (present: bool, cacheHitSum: nat, occupancySum: nat)
    ensures present == EffectivenessOf(samples).cacheHitPresent
    ensures cacheHitSum == EffectivenessOf(samples).cacheHitSum
    ensures occupancySum == EffectivenessOf(samples).occupancySum
  {
    present, cacheHitSum, occupancySum := false, 0, 0;
    for k := 0 to |samples|
      invariant present == EffectivenessOf(samples[..k]).cacheHitPresent
      invariant cacheHitSum == EffectivenessOf(samples[..k]).cacheHitSum
      invariant occupancySum == EffectivenessOf(samples[..k]).occupancySum
    {
      var any, cacheHit, occupancy := SampleCacheHit(samples[k]);
      EffectivenessPrefix(samples, k);
      present, cacheHitSum, occupancySum := present || any, cacheHitSum + cacheHit, occupancySum + occupancy;
    }
    assert samples[..|samples|] == samples;
  }

  method ComputeEffectiveness(samples: seq<EffectivenessSample>) returns (totals: EffectivenessTotals)
    ensures totals == EffectivenessOf(samples)
  {
    var count, effectiveSum, burstSum := BurstFold(samples);
    var present, cacheHitSum, occupancySum := CacheHitFold(samples);
    totals := EffectivenessTotals(count, effectiveSum, burstSum, present, cacheHitSum, occupancySum);
  }

  /**
    The cache-hit line is printed exactly when some sample pairs at least one
    cache-hit sample with an occupancy sample; otherwise both of its sums are zero.
  */
  lemma {:induction false} CacheHitPresence(samples: seq<EffectivenessSample>)
    ensures EffectivenessOf(samples).cacheHitPresent <==>
      exists k :: 0 <= k < |samples| && samples[k].cacheHit != [] && samples[k].occupancy != []
    ensures !EffectivenessOf(samples).cacheHitPresent ==>
      EffectivenessOf(samples).cacheHitSum == 0 && EffectivenessOf(samples).occupancySum == 0
  {
    if samples != [] {
      var init := samples[..|samples| - 1];
      CacheHitPresence(init);
      assert forall k | 0 <= k < |init| :: init[k] == samples[k];
      if EffectivenessOf(init).cacheHitPresent {
        var k :| 0 <= k < |init| && init[k].cacheHit != [] && init[k].occupancy != [];
        assert samples[k] == init[k];
      }
    }
  }

  /**
    The number of samples counts the (effective bandwidth, burst size) pairs,
    sample by sample: the count, the presence flag and all four sums add up
    over a split of the group.
  */
  lemma {:induction false} NumberOfSamplesCountsPairs(a: seq<EffectivenessSample>, b: seq<EffectivenessSample>)
    ensures EffectivenessOf(a + b).numberOfSamples == EffectivenessOf(a).numberOfSamples + EffectivenessOf(b).numberOfSamples
    ensures EffectivenessOf(a + b).cacheHitPresent == (EffectivenessOf(a).cacheHitPresent || EffectivenessOf(b).cacheHitPresent)
    ensures EffectivenessOf(a + b).bandwidthEffectiveSum == EffectivenessOf(a).bandwidthEffectiveSum + EffectivenessOf(b).bandwidthEffectiveSum
    ensures EffectivenessOf(a + b).averageBurstSizeSum == EffectivenessOf(a).averageBurstSizeSum + EffectivenessOf(b).averageBurstSizeSum
    ensures EffectivenessOf(a + b).cacheHitSum == EffectivenessOf(a).cacheHitSum + EffectivenessOf(b).cacheHitSum
    ensures EffectivenessOf(a + b).occupancySum == EffectivenessOf(a).occupancySum + EffectivenessOf(b).occupancySum
  {
    if b == [] {
      assert a + b == a;
    } else {
      NumberOfSamplesCountsPairs(a, b[..|b| - 1]);
      assert (a + b)[..|a + b| - 1] == a + b[..|b| - 1];
    }
  }

  // ------------------------------------------------------------ channel depth

  datatype ChannelDepthSample = ChannelDepthSample(average: seq<real>, maximum: seq<nat>) {
    function Paired(): nat {
      Min(|average|, |maximum|)
    }
  }

  datatype ChannelDepthTotals = ChannelDepthTotals(numberOfSamples: nat, averageSum: real, maximumOverall: nat)

  function ChannelDepthOf(samples: seq<ChannelDepthSample>): ChannelDepthTotals {
    if samples == [] then ChannelDepthTotals(0, 0.0, 0)
    else
      var rest := ChannelDepthOf(samples[..|samples| - 1]);
      var s := samples[|samples| - 1];
      var m := s.Paired();
      ChannelDepthTotals(
        rest.numberOfSamples + m,
        rest.averageSum + SumReal(s.average[..m]),
        Max(rest.maximumOverall, MaxOf(s.maximum[..m])))
  }

  /** One sample's (average, maximum) depth pairs: counted, averages summed, maxima folded. */
  method SampleChannelDepth(s: ChannelDepthSample) returns (count: nat, averageSum: real, maximum: nat)
    ensures count == s.Paired()
    ensures averageSum == SumReal(s.average[..s.Paired()])
    ensures maximum == MaxOf(s.maximum[..s.Paired()])
  {
    count, averageSum, maximum := 0, 0.0, 0;
    while count < s.Paired()
      invariant count <= s.Paired()
      invariant averageSum == SumReal(s.average[..count])
      invariant maximum == MaxOf(s.maximum[..count])
    {
      SumRealStep(s.average, count);
      MaxOfStep(s.maximum, count);
      averageSum, maximum := averageSum + s.average[count], Max(maximum, s.maximum[count]);
      count := count + 1;
    }
  }

  lemma ChannelDepthPrefix(samples: seq<ChannelDepthSample>, k: nat)
    requires k < |samples|
    ensures var before, after, s := ChannelDepthOf(samples[..k]), ChannelDepthOf(samples[..k + 1]), samples[k];
      after == ChannelDepthTotals(
        before.numberOfSamples + s.Paired(),
        before.averageSum + SumReal(s.average[..s.Paired()]),
        Max(before.maximumOverall, MaxOf(s.maximum[..s.Paired()])))
  {
    assert samples[..k + 1][..k] == samples[..k];
  }

  method ComputeChannelDepth(samples: seq<ChannelDepthSample>) returns (totals: ChannelDepthTotals)
    ensures totals == ChannelDepthOf(samples)
  {
    totals := ChannelDepthTotals(0, 0.0, 0);
    for k := 0 to |samples|
      invariant totals == ChannelDepthOf(samples[..k])
    {
      var count, averageSum, maximum := SampleChannelDepth(samples[k]);
      ChannelDepthPrefix(samples, k);
      totals := ChannelDepthTotals(
        totals.numberOfSamples + count, totals.averageSum + averageSum, Max(totals.maximumOverall, maximum));
    }
    assert samples[..|samples|] == samples;
  }


  /**
    The maximum depth is 0 when no sample pairs anything; otherwise it bounds
    every paired maximum-depth sample and is one of them.
  */
  lemma {:induction false} MaximumDepthIsMaximum(samples: seq<ChannelDepthSample>)
    ensures (forall k | 0 <= k < |samples| :: samples[k].Paired() == 0) ==> ChannelDepthOf(samples).maximumOverall == 0
    ensures forall k, j | 0 <= k < |samples| && 0 <= j < samples[k].Paired() ::
      samples[k].maximum[j] <= ChannelDepthOf(samples).maximumOverall
    ensures (exists k :: 0 <= k < |samples| && samples[k].Paired() > 0) ==>
      exists k, j :: 0 <= k < |samples| && 0 <= j < samples[k].Paired() && samples[k].maximum[j] == ChannelDepthOf(samples).maximumOverall
  {
    if samples != [] {
      var init, s := samples[..|samples| - 1], samples[|samples| - 1];
      var cut := s.maximum[..s.Paired()];
      MaximumDepthIsMaximum(init);
      MaxOfIsMaximum(cut);
      var before, overall := ChannelDepthOf(init).maximumOverall, ChannelDepthOf(samples).maximumOverall;
      assert overall == Max(before, MaxOf(cut));
      if forall k | 0 <= k < |samples| :: samples[k].Paired() == 0 {
        assert forall k | 0 <= k < |init| :: init[k].Paired() == 0 by {
          forall k | 0 <= k < |init| ensures init[k].Paired() == 0 {
            assert init[k] == samples[k];
          }
        }
      }
      forall k, j | 0 <= k < |samples| && 0 <= j < samples[k].Paired() ensures samples[k].maximum[j] <= overall {
        if k < |init| {
          assert init[k] == samples[k];
        } else {
          assert cut[j] == s.maximum[j];
        }
      }
      if exists k :: 0 <= k < |init| && init[k].Paired() > 0 {
        var k, j :| 0 <= k < |init| && 0 <= j < init[k].Paired() && init[k].maximum[j] == before;
        if MaxOf(cut) <= before {
          assert samples[k].maximum[j] == overall;
        } else {
          var i :| 0 <= i < |cut| && cut[i] == MaxOf(cut);
          assert s.maximum[i] == overall;
        }
      } else if cut != [] {
        var i :| 0 <= i < |cut| && cut[i] == MaxOf(cut);
        assert s.maximum[i] == overall;
      }
    }
  }

  // ---------------------------------------------------------------- intervals

  /** Pairs position i of both sequences, cut to the shorter one. */
  function Zip<A, B>(a: seq<A>, b: seq<B>): (r: seq<(A, B)>)
    ensures |r| == Min(|a|, |b|)
    ensures forall i | 0 <= i < |r| :: r[i] == (a[i], b[i])
  {
    seq(Min(|a|, |b|), i requires 0 <= i < Min(|a|, |b|) => (a[i], b[i]))
  }

  /**
    The sampling intervals of a kernel. Interval i ends at timestamp i and
    starts at the previous timestamp, or at the start time for the first.
  */
  function Intervals(startTime: nat, timestamps: seq<nat>): (r: seq<(nat, nat)>)
    ensures |r| == |timestamps|
    ensures forall i | 0 <= i < |r| :: r[i].1 == timestamps[i]
    ensures forall i | 0 <= i < |r| :: r[i].0 == if i == 0 then startTime else timestamps[i - 1]
  {
    if timestamps == [] then []
    else
      var n := |timestamps|;
      var init := Intervals(startTime, timestamps[..n - 1]);
      var r := init + [(if n == 1 then startTime else timestamps[n - 2], timestamps[n - 1])];
      assert forall i | 0 <= i < n - 1 :: r[i] == init[i] && timestamps[..n - 1][i] == timestamps[i];
      r
  }

  /** The program's construction: the start time followed by the timestamps, zipped with the timestamps. */
  lemma IntervalsZipPrevious(startTime: nat, timestamps: seq<nat>)
    ensures Intervals(startTime, timestamps) == Zip([startTime] + timestamps, timestamps)
  {
    var r, z := Intervals(startTime, timestamps), Zip([startTime] + timestamps, timestamps);
    forall i | 0 <= i < |r| ensures r[i] == z[i] {
      ZipPreviousAt(startTime, timestamps, i);
    }
  }

  lemma ZipPreviousAt(startTime: nat, timestamps: seq<nat>, i: nat)
    requires i < |timestamps|
    ensures Zip([startTime] + timestamps, timestamps)[i] == (if i == 0 then startTime else timestamps[i - 1], timestamps[i])
  {
    var previous := [startTime] + timestamps;
    assert previous[i] == if i == 0 then startTime else timestamps[i - 1];
  }

  /** The `u64` subtraction of the program, over integers: negative where the program would underflow. */
  function Duration(interval: (nat, nat)): int {
    interval.1 - interval.0
  }

  function SumDurations(intervals: seq<(nat, nat)>): int {
    if intervals == [] then 0 else SumDurations(intervals[..|intervals| - 1]) + Duration(intervals[|intervals| - 1])
  }

  predicate Nondecreasing(startTime: nat, timestamps: seq<nat>) {
    (timestamps != [] ==> startTime <= timestamps[0])
    && forall i | 0 < i < |timestamps| :: timestamps[i - 1] <= timestamps[i]
  }

  /** With timestamps that never go back, no interval duration underflows. */
  lemma NoUnderflow(startTime: nat, timestamps: seq<nat>)
    requires Nondecreasing(startTime, timestamps)
    ensures forall i | 0 <= i < |timestamps| :: Duration(Intervals(startTime, timestamps)[i]) >= 0
  {
  }

  /** The durations telescope: together they span from the start time to the last timestamp. */
  lemma {:induction false} DurationsTelescope(startTime: nat, timestamps: seq<nat>)
    requires timestamps != []
    ensures SumDurations(Intervals(startTime, timestamps)) == timestamps[|timestamps| - 1] - startTime
  {
    var n := |timestamps|;
    var r := Intervals(startTime, timestamps);
    if n == 1 {
      assert r[..0] == [];
    } else {
      var init := timestamps[..n - 1];
      var q := Intervals(startTime, init);
      DurationsTelescope(startTime, init);
      assert r[..n - 1] == q by {
        forall i | 0 <= i < n - 1 ensures r[..n - 1][i] == q[i] {
        }
      }
      assert r[n - 1] == (timestamps[n - 2], timestamps[n - 1]);
      assert SumDurations(r) == SumDurations(q) + Duration(r[n - 1]);
    }
  }

  // ---------------------------------------------------------------- bandwidth

  /** Σ duration × weight over the first `n` intervals. */
  function WeightedSum(intervals: seq<(nat, nat)>, weights: seq<real>, n: nat): real
    requires n <= |intervals| && n <= |weights|
  {
    if n == 0 then 0.0
    else WeightedSum(intervals, weights, n - 1) + Weighted(intervals[n - 1], weights[n - 1])
  }

  /** One interval's contribution: its duration times the reading over it. */
  function Weighted(interval: (nat, nat), weight: real): real {
    (Duration(interval) as real) * weight
  }

  /** One (kernel, sample) pair: the kernel's times and the sample's bandwidth readings. */
  datatype BandwidthSample = BandwidthSample(startTime: nat, endTime: nat, timestamps: seq<nat>, bandwidth: seq<real>) {
    function Paired(): nat {
      Min(|timestamps|, |bandwidth|)
    }

    /** The bandwidth integrated over the kernel's sampling intervals. */
    function Integral(): real {
      WeightedSum(Intervals(startTime, timestamps), bandwidth, Paired())
    }
  }

  function IntegralOf(samples: seq<BandwidthSample>): real {
    if samples == [] then 0.0 else IntegralOf(samples[..|samples| - 1]) + samples[|samples| - 1].Integral()
  }

  /** The (start, end) span of each sample's kernel. */
  function KernelSpans(samples: seq<BandwidthSample>): (r: seq<Span>)
    ensures |r| == |samples|
    ensures forall k | 0 <= k < |r| :: r[k] == Span(samples[k].startTime, samples[k].endTime)
  {
    seq(|samples|, k requires 0 <= k < |samples| => Span(samples[k].startTime, samples[k].endTime))
  }

  /** The integral over the merged runtime of the distinct kernel spans. */
  datatype BandwidthTotals = BandwidthTotals(integral: real, runtime: int)

  function BandwidthOf(samples: seq<BandwidthSample>): BandwidthTotals {
    BandwidthTotals(IntegralOf(samples), TotalRuntime(KernelSpans(samples)))
  }

  /** One sample's bandwidth, weighted by the duration of each paired interval. */
  method SampleIntegral(s: BandwidthSample) returns (integral: real)
    ensures integral == s.Integral()
  {
    var intervals := Intervals(s.startTime, s.timestamps);
    integral := 0.0;
    var j := 0;
    while j < s.Paired()
      invariant j <= s.Paired()
      invariant integral == WeightedSum(intervals, s.bandwidth, j)
    {
      integral := integral + Weighted(intervals[j], s.bandwidth[j]);
      j := j + 1;
    }
  }

  /** The integrals of all samples, each summed over its intervals. */
  method IntegralFold(samples: seq<BandwidthSample>) returns (integral: real)
    ensures integral == IntegralOf(samples)
  {
    integral := 0.0;
    for k := 0 to |samples|
      invariant integral == IntegralOf(samples[..k])
    {
      var contribution := SampleIntegral(samples[k]);
      assert samples[..k + 1][..k] == samples[..k];
      integral := integral + contribution;
    }
    assert samples[..|samples|] == samples;
  }

  /** The kernel spans collected into the ordered set, merged, and their lengths summed. */
  method RuntimeFold(spans: seq<Span>) returns (runtime: int)
    ensures runtime == TotalRuntime(spans)
  {
    var sorted: seq<Span> := [];
    for k := 0 to |spans|
      invariant sorted == SortedSpans(spans[..k])
    {
      assert spans[..k + 1][..k] == spans[..k];
      sorted := InsertSpan(sorted, spans[k]);
    }
    assert spans[..|spans|] == spans;
    var stack := UnionSpans(sorted);
    runtime := 0;
    for k := 0 to |stack|
      invariant runtime == Runtime(stack[..k])
    {
      assert stack[..k + 1][..k] == stack[..k];
      runtime := runtime + (stack[k].end - stack[k].start);
    }
    assert stack[..|stack|] == stack;
  }

  method ComputeBandwidth(samples: seq<BandwidthSample>) returns (totals: BandwidthTotals)
    ensures totals == BandwidthOf(samples)
  {
    var integral := IntegralFold(samples);
    var runtime := RuntimeFold(KernelSpans(samples));
    totals := BandwidthTotals(integral, runtime);
  }

  /** A reading `b` held over `x` time units. */
  function Scale(b: real, x: int): real {
    b * (x as real)
  }

  lemma {:induction false} WeightedConstant(intervals: seq<(nat, nat)>, weights: seq<real>, n: nat, b: real)
    requires n <= |intervals| && n <= |weights|
    requires forall j | 0 <= j < n :: weights[j] == b
    ensures WeightedSum(intervals, weights, n) == Scale(b, SumDurations(intervals[..n]))
  {
    if n > 0 {
      WeightedConstant(intervals, weights, n - 1, b);
      var before, d := SumDurations(intervals[..n - 1]), Duration(intervals[n - 1]);
      assert intervals[..n][..n - 1] == intervals[..n - 1];
      assert SumDurations(intervals[..n]) == before + d;
      assert Weighted(intervals[n - 1], weights[n - 1]) == Scale(b, d);
      assert Scale(b, before + d) == Scale(b, before) + Scale(b, d);
    }
  }

  /**
    At a constant bandwidth reading, with a reading for every interval, the
    integral is that bandwidth times the time from the kernel start to the
    last timestamp.
  */
  lemma ConstantBandwidthIntegral(s: BandwidthSample, b: real)
    requires s.timestamps != [] && |s.bandwidth| >= |s.timestamps|
    requires forall j | 0 <= j < |s.bandwidth| :: s.bandwidth[j] == b
    ensures s.Integral() == Scale(b, s.timestamps[|s.timestamps| - 1] - s.startTime)
  {
    var n := |s.timestamps|;
    var intervals := Intervals(s.startTime, s.timestamps);
    assert s.Paired() == n;
    WeightedConstant(intervals, s.bandwidth, n, b);
    assert intervals[..n] == intervals;
    DurationsTelescope(s.startTime, s.timestamps);
  }
}
