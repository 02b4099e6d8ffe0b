/**
  The external-memory report: for every external-memory child of a kept
  kernel, the kernel's run time and the bandwidth and burst readings weighted
  by the duration of the kernel's sampling intervals, added up per memory name
  and port in nested ordered maps. The printed quotients are left out; a row
  carries the sums they are divided from.
*/
module ExternalMemoryReport {
  import opened Wrappers
  import opened Orderings
  import opened DataModel
  import opened Grouping
  import opened Aggregation
  import Report

  /** One external-memory child with the kernel it belongs to. */
  datatype Contribution = Contribution(kernel: Kernel, memory: ExternalMemory)

  /** The external-memory children of one kernel, in order. */
  function KernelContributions(kernel: Kernel, children: seq<Child>): (r: seq<Contribution>)
    ensures forall c | c in r :: c.kernel == kernel && ExternalMemoryChild(c.memory) in children
    ensures forall i | 0 <= i < |children| && children[i].ExternalMemoryChild? :: Contribution(kernel, children[i].externalMemory) in r
  {
    if children == [] then []
    else
      var c := children[|children| - 1];
      var rest := KernelContributions(kernel, children[..|children| - 1]);
      assert forall i | 0 <= i < |children| - 1 :: children[..|children| - 1][i] == children[i];
      rest + (if c.ExternalMemoryChild? then [Contribution(kernel, c.externalMemory)] else [])
  }

  /** The external-memory children of every kernel, kernel by kernel. */
  function Contributions(kernels: seq<Kernel>): (r: seq<Contribution>)
    ensures forall c | c in r :: c.kernel in kernels && c in KernelContributions(c.kernel, c.kernel.children)
    ensures forall k, c | k in kernels && c in KernelContributions(k, k.children) :: c in r
  {
    if kernels == [] then []
    else
      var k := kernels[|kernels| - 1];
      var rest := Contributions(kernels[..|kernels| - 1]);
      assert forall k' | k' in kernels :: k' in kernels[..|kernels| - 1] || k' == k;
      rest + KernelContributions(k, k.children)
  }

  function SectionContributions(profile: Profile, allow: Option<seq<string>>): seq<Contribution> {
    Contributions(Report.KeptKernels(profile.kernels.nodes, allow))
  }

  /**
    A pair contributes exactly when its kernel is one of the profile's kernels
    kept by the allow-list and its memory is one of that kernel's external-memory children.
  */
  lemma SectionContributionsExactly(profile: Profile, allow: Option<seq<string>>, c: Contribution)
    ensures c in SectionContributions(profile, allow) <==>
      && KernelNode(c.kernel) in profile.kernels.nodes
      && Report.Kept(allow, c.kernel.name)
      && ExternalMemoryChild(c.memory) in c.kernel.children
  {
    var nodes := profile.kernels.nodes;
    if KernelNode(c.kernel) in nodes && Report.Kept(allow, c.kernel.name) && ExternalMemoryChild(c.memory) in c.kernel.children {
      var i :| 0 <= i < |nodes| && nodes[i] == KernelNode(c.kernel);
      assert c.kernel in Report.KeptKernels(nodes, allow);
      var j :| 0 <= j < |c.kernel.children| && c.kernel.children[j] == ExternalMemoryChild(c.memory);
      assert c in KernelContributions(c.kernel, c.kernel.children);
    }
  }

  // ------------------------------------------------------------------- sums

  /** Run time, then the weighted bandwidth, write-burst and read-burst sums: the map's value tuple. */
  datatype Sums = Sums(time: int, bandwidth: real, writeBurst: real, readBurst: real) {
    function Plus(other: Sums): Sums {
      Sums(time + other.time, bandwidth + other.bandwidth, writeBurst + other.writeBurst, readBurst + other.readBurst)
    }
  }

  /** What `or_insert` starts a new port with. */
  const Zero := Sums(0, 0.0, 0.0, 0.0)

  /** The intervals zipped with the three reading series: cut to the shortest of the four. */
  function Paired(c: Contribution): nat {
    Min(|c.kernel.sampleTimestamps|,
      Min(|c.memory.globalUsedBandwidth|, Min(|c.memory.averageWriteBurst|, |c.memory.averageReadBurst|)))
  }

  /**
    One contribution: the kernel's end time minus its start time, and each
    reading series weighted by the duration of the interval it was taken over.
  */
  function UsageOf(c: Contribution): Sums {
    var intervals := Intervals(c.kernel.startTime, c.kernel.sampleTimestamps);
    var n := Paired(c);
    Sums(c.kernel.endTime - c.kernel.startTime,
      WeightedSum(intervals, c.memory.globalUsedBandwidth, n),
      WeightedSum(intervals, c.memory.averageWriteBurst, n),
      WeightedSum(intervals, c.memory.averageReadBurst, n))
  }

  /**
    Readings held constant over every interval weigh by the time from the
    kernel start to the last timestamp.
  */
  lemma ConstantReadingsUsage(c: Contribution, b: real, w: real, r: real)
    requires c.kernel.sampleTimestamps != []
    requires |c.memory.globalUsedBandwidth| >= |c.kernel.sampleTimestamps|
    requires |c.memory.averageWriteBurst| >= |c.kernel.sampleTimestamps|
    requires |c.memory.averageReadBurst| >= |c.kernel.sampleTimestamps|
    requires forall j | 0 <= j < |c.memory.globalUsedBandwidth| :: c.memory.globalUsedBandwidth[j] == b
    requires forall j | 0 <= j < |c.memory.averageWriteBurst| :: c.memory.averageWriteBurst[j] == w
    requires forall j | 0 <= j < |c.memory.averageReadBurst| :: c.memory.averageReadBurst[j] == r
    ensures var span := c.kernel.sampleTimestamps[|c.kernel.sampleTimestamps| - 1] - c.kernel.startTime;
      UsageOf(c) == Sums(c.kernel.endTime - c.kernel.startTime, Scale(b, span), Scale(w, span), Scale(r, span))
  {
    var k, n := c.kernel, |c.kernel.sampleTimestamps|;
    assert Paired(c) == n;
    var used := BandwidthSample(k.startTime, k.endTime, k.sampleTimestamps, c.memory.globalUsedBandwidth);
    var write := BandwidthSample(k.startTime, k.endTime, k.sampleTimestamps, c.memory.averageWriteBurst);
    var read := BandwidthSample(k.startTime, k.endTime, k.sampleTimestamps, c.memory.averageReadBurst);
    assert used.Paired() == write.Paired() == read.Paired() == n;
    ConstantBandwidthIntegral(used, b);
    ConstantBandwidthIntegral(write, w);
    ConstantBandwidthIntegral(read, r);
  }

  /** The reference sums: every contribution's usage added up, in order. */
  function Total(cs: seq<Contribution>): Sums {
    if cs == [] then Zero else Total(cs[..|cs| - 1]).Plus(UsageOf(cs[|cs| - 1]))
  }

  // -------------------------------------------------------------------- map

  /** The key of the nested maps: the memory's name, then its port. */
  function Key(c: Contribution): (string, string) {
    (c.memory.name, c.memory.port)
  }

  /** Visiting the outer map by name and each inner map by port: the order of the pair. */
  function CompareKeys(a: (string, string), b: (string, string)): Ordering {
    CompareStrings(a.0, b.0).Then(CompareStrings(a.1, b.1))
  }

  lemma KeysTotalOrder()
    ensures TotalOrder(CompareKeys)
  {
    StringsTotalOrder();
    forall a: (string, string), b: (string, string) ensures CompareKeys(b, a) == CompareKeys(a, b).Flip() {
      assert CompareStrings(b.0, a.0) == CompareStrings(a.0, b.0).Flip();
      assert CompareStrings(b.1, a.1) == CompareStrings(a.1, b.1).Flip();
    }
    forall a: (string, string), b: (string, string), c: (string, string) | CompareKeys(a, b) != Greater && CompareKeys(b, c) != Greater
      ensures CompareKeys(a, c) != Greater
    {
      PreorderChains(CompareStrings, a.0, b.0, c.0);
      PreorderChains(CompareStrings, a.1, b.1, c.1);
      ThenChains(CompareStrings(a.0, b.0), CompareStrings(b.0, c.0), CompareStrings(a.0, c.0),
        CompareStrings(a.1, b.1), CompareStrings(b.1, c.1), CompareStrings(a.1, c.1));
    }
    forall a: (string, string), b: (string, string) | CompareKeys(a, b) == Equal ensures a == b {
      assert CompareStrings(a.0, b.0) == Equal && CompareStrings(a.1, b.1) == Equal;
    }
  }

  /** One printed port: its memory name and port, and the sums its lines are divided from. */
  datatype Row = Row(key: (string, string), sums: Sums)

  /** Where a search for `key` stops: the first row whose key is not below it. */
  function RowPosition(rows: seq<Row>, key: (string, string)): (p: nat)
    ensures p <= |rows|
  {
    if rows == [] || CompareKeys(key, rows[0].key) != Greater then 0
    else 1 + RowPosition(rows[1..], key)
  }

  /**
    `entry(name).entry(port).or_insert(zero)` followed by `+=`: the row whose
    key ties `key` gains `u`, or a zero row gaining `u` goes in where it keeps
    the keys ascending.
  */
  function Accumulate(rows: seq<Row>, key: (string, string), u: Sums): seq<Row> {
    var p := RowPosition(rows, key);
    if p < |rows| && CompareKeys(key, rows[p].key) == Equal then
      rows[..p] + [Row(rows[p].key, rows[p].sums.Plus(u))] + rows[p + 1..]
    else
      rows[..p] + [Row(key, Zero.Plus(u))] + rows[p..]
  }

  /** The map after folding in every contribution, in order. */
  function AccumulateAll(cs: seq<Contribution>): seq<Row> {
    if cs == [] then []
    else
      var last := cs[|cs| - 1];
      Accumulate(AccumulateAll(cs[..|cs| - 1]), Key(last), UsageOf(last))
  }

  lemma AccumulateAllStep(cs: seq<Contribution>, j: nat)
    requires j < |cs|
    ensures AccumulateAll(cs[..j + 1]) == Accumulate(AccumulateAll(cs[..j]), Key(cs[j]), UsageOf(cs[j]))
  {
    assert cs[..j + 1][..j] == cs[..j];
  }

  function ExternalMemoryRows(profile: Profile, allow: Option<seq<string>>): seq<Row> {
    AccumulateAll(SectionContributions(profile, allow))
  }

  // -------------------------------------------------- the fold is group-then-sum

  /** A grouping of the contributions, each group summed. */
  function RowsOf(groups: seq<Group<(string, string), Contribution>>): (r: seq<Row>)
    ensures |r| == |groups|
    ensures forall i | 0 <= i < |r| :: r[i] == Row(groups[i].key, Total(groups[i].values))
  {
    seq(|groups|, i requires 0 <= i < |groups| => Row(groups[i].key, Total(groups[i].values)))
  }

  lemma {:induction false} RowPositionAgrees(groups: seq<Group<(string, string), Contribution>>, key: (string, string))
    ensures RowPosition(RowsOf(groups), key) == Position(groups, key, CompareKeys)
  {
    if groups != [] && CompareKeys(key, groups[0].key) == Greater {
      assert RowsOf(groups)[1..] == RowsOf(groups[1..]);
      RowPositionAgrees(groups[1..], key);
    }
  }

  lemma TotalAppend(values: seq<Contribution>, c: Contribution)
    ensures Total(values + [c]) == Total(values).Plus(UsageOf(c))
  {
    assert (values + [c])[..|values|] == values;
  }

  /** Row `q` after folding in `u` under `key`, in terms of the search position. */
  lemma {:induction false} AccumulateAt(rows: seq<Row>, key: (string, string), u: Sums, q: nat)
    ensures var p, r := RowPosition(rows, key), Accumulate(rows, key, u);
      if p < |rows| && CompareKeys(key, rows[p].key) == Equal then
        && |r| == |rows|
        && (q < |r| ==> r[q] == if q == p then Row(rows[p].key, rows[p].sums.Plus(u)) else rows[q])
      else
        && |r| == |rows| + 1
        && (q < |r| ==> r[q] == if q < p then rows[q] else if q == p then Row(key, Zero.Plus(u)) else rows[q - 1])
  {
  }

  /** Folding one contribution into the summed groups sums the grouping it is pushed into. */
  lemma {:induction false} AccumulateInsert(groups: seq<Group<(string, string), Contribution>>, c: Contribution)
    ensures Accumulate(RowsOf(groups), Key(c), UsageOf(c)) == RowsOf(Insert(groups, Key(c), c, CompareKeys))
  {
    var rows, key, u := RowsOf(groups), Key(c), UsageOf(c);
    RowPositionAgrees(groups, key);
    var p := Position(groups, key, CompareKeys);
    if p < |groups| && CompareKeys(key, groups[p].key) == Equal {
      TotalAppend(groups[p].values, c);
    } else {
      assert Total([c]) == Zero.Plus(u) by {
        assert [c][..0] == [];
      }
    }
    var left, right := Accumulate(rows, key, u), RowsOf(Insert(groups, key, c, CompareKeys));
    InsertAt(groups, key, c, CompareKeys, 0);
    AccumulateAt(rows, key, u, 0);
    forall i | 0 <= i < |left| ensures left[i] == right[i] {
      InsertAt(groups, key, c, CompareKeys, i);
      AccumulateAt(rows, key, u, i);
    }
  }

  /** The running sums the program keeps are the sums of the groups a `BTreeMap` of vectors would hold. */
  lemma {:induction false} AccumulateAllGroups(cs: seq<Contribution>)
    ensures AccumulateAll(cs) == RowsOf(GroupAll(cs, Key, CompareKeys))
  {
    if cs != [] {
      var init, last := cs[..|cs| - 1], cs[|cs| - 1];
      AccumulateAllGroups(init);
      AccumulateInsert(GroupAll(init, Key, CompareKeys), last);
    }
  }

  /** With the pair order total, the contributions summed under a key are exactly those with that name and port. */
  lemma MatchingSameKey(cs: seq<Contribution>, key: (string, string))
    ensures forall c | c in Matching(cs, Key, CompareKeys, key) :: c in cs && Key(c) == key
  {
    KeysTotalOrder();
    MatchingKeysTie(cs, Key, CompareKeys, key);
  }

  /**
    The printed ports come in ascending (name, port) order, and each port's
    sums add up exactly the contributions with its name and port, in input
    order. The time is a plain sum of run times: overlapping kernels are not merged.
  */
  lemma RowsSumTheirPort(cs: seq<Contribution>, rows: seq<Row>)
    requires rows == AccumulateAll(cs)
    ensures forall i, j | 0 <= i < j < |rows| :: CompareKeys(rows[i].key, rows[j].key) == Less
    ensures forall q | 0 <= q < |rows| :: rows[q].sums == Total(Matching(cs, Key, CompareKeys, rows[q].key))
  {
    var groups := GroupAll(cs, Key, CompareKeys);
    AccumulateAllGroups(cs);
    KeysTotalOrder();
    GroupAllGrouped(cs, Key, CompareKeys);
    assert Grouped(groups, cs, Key, CompareKeys);
  }

  /** Every contribution's name and port is printed. */
  lemma RowsCoverContributions(cs: seq<Contribution>, rows: seq<Row>, j: nat)
    requires rows == AccumulateAll(cs) && j < |cs|
    ensures exists q :: 0 <= q < |rows| && rows[q].key == Key(cs[j])
  {
    var groups := GroupAll(cs, Key, CompareKeys);
    AccumulateAllGroups(cs);
    KeysTotalOrder();
    ExactlyOneGroup(cs, Key, CompareKeys, j, groups);
    var q :| 0 <= q < |groups| && CompareKeys(Key(cs[j]), groups[q].key) == Equal && cs[j] in groups[q].values;
    assert rows[q].key == groups[q].key;
  }

  /**
    Two contributions to one port from kernels that both ran from 0 to 100
    report 200 time units: the run times are added, not merged.
  */
  lemma RunTimesAdd(c1: Contribution, c2: Contribution)
    requires Key(c1) == Key(c2)
    requires c1.kernel.startTime == 0 && c1.kernel.endTime == 100
    requires c2.kernel.startTime == 0 && c2.kernel.endTime == 100
    ensures |AccumulateAll([c1, c2])| == 1 && AccumulateAll([c1, c2])[0].sums.time == 200
  {
    var u1, u2 := UsageOf(c1), UsageOf(c2);
    assert u1.time == 100 && u2.time == 100;
    assert [c1, c2][..1] == [c1];
    assert [c1][..0] == [];
    var first := [Row(Key(c1), Zero.Plus(u1))];
    assert AccumulateAll([c1]) == first;
    StringsTotalOrder();
    assert CompareStrings(Key(c2).0, Key(c1).0) == Equal && CompareStrings(Key(c2).1, Key(c1).1) == Equal;
    assert CompareKeys(Key(c2), first[0].key) == Equal;
    assert RowPosition(first, Key(c2)) == 0;
    assert AccumulateAll([c1, c2]) == Accumulate(first, Key(c2), u2);
    assert Accumulate(first, Key(c2), u2) == [Row(Key(c1), first[0].sums.Plus(u2))];
  }

  // ---------------------------------------------------------------- the fold

  /** The fold over the intervals zipped with the three reading series. */
  method WeightedFold(intervals: seq<(nat, nat)>, used: seq<real>, write: seq<real>, read: seq<real>, n: nat)
    returns (bandwidth: real, writeBurst: real, readBurst: real)
    requires n <= |intervals| && n <= |used| && n <= |write| && n <= |read|
    ensures bandwidth == WeightedSum(intervals, used, n)
    ensures writeBurst == WeightedSum(intervals, write, n)
    ensures readBurst == WeightedSum(intervals, read, n)
  {
    bandwidth, writeBurst, readBurst := 0.0, 0.0, 0.0;
    for i := 0 to n
      invariant bandwidth == WeightedSum(intervals, used, i)
      invariant writeBurst == WeightedSum(intervals, write, i)
      invariant readBurst == WeightedSum(intervals, read, i)
    {
      var time := Duration(intervals[i]) as real;
      bandwidth := bandwidth + time * used[i];
      writeBurst := writeBurst + time * write[i];
      readBurst := readBurst + time * read[i];
    }
  }

  /** One contribution: the kernel's run time and its readings weighted over its intervals. */
  method MeasureUsage(c: Contribution) returns (u: Sums)
    ensures u == UsageOf(c)
  {
    var intervals := Intervals(c.kernel.startTime, c.kernel.sampleTimestamps);
    var bandwidth, writeBurst, readBurst := WeightedFold(intervals,
      c.memory.globalUsedBandwidth, c.memory.averageWriteBurst, c.memory.averageReadBurst, Paired(c));
    u := Sums(c.kernel.endTime - c.kernel.startTime, bandwidth, writeBurst, readBurst);
  }

  /** The map update for one contribution: search for the port, then add into it or insert it. */
  method AccumulateInto(rows: seq<Row>, key: (string, string), u: Sums) returns (r: seq<Row>)
    ensures r == Accumulate(rows, key, u)
  {
    var i := 0;
    while i < |rows| && CompareKeys(key, rows[i].key) == Greater
      invariant i <= RowPosition(rows, key)
      invariant RowPosition(rows, key) == i + RowPosition(rows[i..], key)
    {
      assert rows[i..][1..] == rows[i + 1..];
      i := i + 1;
    }
    if i < |rows| && CompareKeys(key, rows[i].key) == Equal {
      r := rows[..i] + [Row(rows[i].key, rows[i].sums.Plus(u))] + rows[i + 1..];
    } else {
      r := rows[..i] + [Row(key, Zero.Plus(u))] + rows[i..];
    }
  }

  /** `print_external_memory`, with the output kept as the rows it prints. */
  method PrintExternalMemory(profile: Profile, allow: Option<seq<string>>) returns (rows: seq<Row>)
    ensures rows == ExternalMemoryRows(profile, allow)
  {
    var cs := SectionContributions(profile, allow);
    rows := [];
    for j := 0 to |cs|
      invariant rows == AccumulateAll(cs[..j])
    {
      var u := MeasureUsage(cs[j]);
      AccumulateAllStep(cs, j);
      rows := AccumulateInto(rows, Key(cs[j]), u);
    }
    assert cs[..|cs|] == cs;
  }
}
