/**
  The module-instance report: the kernels the allow-list keeps, the module
  instances of one section's variant under them, grouped by their source-file
  chain and, in expand mode, by kernel name and module-instance name, with the
  section's metrics computed for each block. Printing is left out; the report
  is the structure the program prints.
*/
module Report {
  import opened Wrappers
  import opened Orderings
  import opened DataModel
  import Capabilities
  import opened Grouping
  import opened Aggregation

  /** `options.kernels`: with no list every kernel is kept, otherwise only the listed names. */
  predicate Kept(allow: Option<seq<string>>, name: string) {
    allow.None? || name in allow.value
  }

  /** The kernel nodes of a collection, in order, whose names the allow-list keeps. */
  function KeptKernels(nodes: seq<Node>, allow: Option<seq<string>>): (r: seq<Kernel>)
    ensures forall k | k in r :: KernelNode(k) in nodes && Kept(allow, k.name)
    ensures forall i | 0 <= i < |nodes| && nodes[i].KernelNode? && Kept(allow, nodes[i].kernel.name) :: nodes[i].kernel in r
  {
    if nodes == [] then []
    else
      var n := nodes[|nodes| - 1];
      var rest := KeptKernels(nodes[..|nodes| - 1], allow);
      assert forall i | 0 <= i < |nodes| - 1 :: nodes[..|nodes| - 1][i] == nodes[i];
      rest + (if n.KernelNode? && Kept(allow, n.kernel.name) then [n.kernel] else [])
  }

  /** The four module-instance sections, each printed for one variant of the details. */
  datatype Section = GlobalSection | LocalSection | ChannelSection | LoopSection

  /** The section's filter: a module instance belongs to it when its details are of the section's variant. */
  predicate Selects(section: Section, d: ModuleInstanceDetails) {
    match section
    case GlobalSection => d.GlobalDetails?
    case LocalSection => d.LocalDetails?
    case ChannelSection => d.ChannelDetails?
    case LoopSection => d.LoopDetails?
  }

  /** One sample of the report: a module instance with the kernel it runs in. */
  datatype Entry = Entry(kernel: Kernel, instance: ModuleInstance)

  function SourceFiles(e: Entry): seq<FileReference> {
    e.instance.sourceFiles
  }

  function KernelName(e: Entry): string {
    e.kernel.name
  }

  function InstanceName(e: Entry): string {
    e.instance.name
  }

  /** The module instances among one kernel's children that the section selects, in order. */
  function KernelEntries(kernel: Kernel, children: seq<Child>, section: Section): (r: seq<Entry>)
    ensures forall e | e in r :: e.kernel == kernel && ModuleInstanceChild(e.instance) in children && Selects(section, e.instance.details)
    ensures forall i | 0 <= i < |children| && children[i].ModuleInstanceChild? && Selects(section, children[i].moduleInstance.details) ::
      Entry(kernel, children[i].moduleInstance) in r
  {
    if children == [] then []
    else
      var c := children[|children| - 1];
      var rest := KernelEntries(kernel, children[..|children| - 1], section);
      assert forall i | 0 <= i < |children| - 1 :: children[..|children| - 1][i] == children[i];
      rest + (if c.ModuleInstanceChild? && Selects(section, c.moduleInstance.details) then [Entry(kernel, c.moduleInstance)] else [])
  }

  /** The selected module instances of every kernel, kernel by kernel. */
  function Entries(kernels: seq<Kernel>, section: Section): (r: seq<Entry>)
    ensures forall e | e in r :: e.kernel in kernels && e in KernelEntries(e.kernel, e.kernel.children, section)
    ensures forall k, e | k in kernels && e in KernelEntries(k, k.children, section) :: e in r
  {
    if kernels == [] then []
    else
      var k := kernels[|kernels| - 1];
      var rest := Entries(kernels[..|kernels| - 1], section);
      assert forall k' | k' in kernels :: k' in kernels[..|kernels| - 1] || k' == k;
      rest + KernelEntries(k, k.children, section)
  }

  /** The (kernel, module instance) pairs a section reports on. */
  function SectionEntries(profile: Profile, allow: Option<seq<string>>, section: Section): seq<Entry> {
    Entries(KeptKernels(profile.kernels.nodes, allow), section)
  }

  /**
    A pair is reported exactly when its kernel is one of the profile's kernels
    kept by the allow-list, and its module instance is one of that kernel's
    children of the section's variant.
  */
  lemma SectionEntriesExactly(profile: Profile, allow: Option<seq<string>>, section: Section, e: Entry)
    ensures e in SectionEntries(profile, allow, section) <==>
      && KernelNode(e.kernel) in profile.kernels.nodes
      && Kept(allow, e.kernel.name)
      && ModuleInstanceChild(e.instance) in e.kernel.children
      && Selects(section, e.instance.details)
  {
    var nodes := profile.kernels.nodes;
    if KernelNode(e.kernel) in nodes && Kept(allow, e.kernel.name)
      && ModuleInstanceChild(e.instance) in e.kernel.children && Selects(section, e.instance.details)
    {
      var i :| 0 <= i < |nodes| && nodes[i] == KernelNode(e.kernel);
      assert e.kernel in KeptKernels(nodes, allow);
      var j :| 0 <= j < |e.kernel.children| && e.kernel.children[j] == ModuleInstanceChild(e.instance);
      assert e in KernelEntries(e.kernel, e.kernel.children, section);
    }
  }

  // ------------------------------------------------------------------ metrics

  /** What one block prints: occupancy always, the other families as the section has them. */
  datatype Metrics = Metrics(
    occupancy: Ratio,
    stall: Option<StallTotals>,
    bandwidth: Option<BandwidthTotals>,
    effectiveness: Option<EffectivenessTotals>,
    channelDepth: Option<ChannelDepthTotals>)

  // A family the details do not expose reads as empty arrays here; the
  // section asks only for families its variant exposes (SectionUsesExposedFamilies).

  function StallViewOf(d: ModuleInstanceDetails): Capabilities.StallView {
    match Capabilities.Stall(d)
    case Some(v) => v
    case None => Capabilities.StallView([], [], [])
  }

  function BandwidthSamplesOf(d: ModuleInstanceDetails): seq<real> {
    match Capabilities.Bandwidth(d)
    case Some(v) => v
    case None => []
  }

  function EffectivenessViewOf(d: ModuleInstanceDetails): Capabilities.EffectivenessView {
    match Capabilities.Effectiveness(d)
    case Some(v) => v
    case None => Capabilities.EffectivenessView([], [], [])
  }

  function ChannelDepthViewOf(d: ModuleInstanceDetails): Capabilities.ChannelDepthView {
    match Capabilities.ChannelDepth(d)
    case Some(v) => v
    case None => Capabilities.ChannelDepthView([], [])
  }

  /** Each sample's occupancy paired with its kernel's cycles between samples. */
  function OccupancySamples(entries: seq<Entry>): seq<OccupancySample> {
    seq(|entries|, i requires 0 <= i < |entries| =>
      OccupancySample(Capabilities.Occupancy(entries[i].instance.details), entries[i].kernel.totalCyclesBetweenSamples))
  }

  function StallSamples(entries: seq<Entry>): seq<StallSample> {
    seq(|entries|, i requires 0 <= i < |entries| =>
      var v := StallViewOf(entries[i].instance.details);
      StallSample(v.stall, v.idle, v.activity, entries[i].kernel.totalCyclesBetweenSamples))
  }

  /** Each sample's bandwidth readings with its kernel's start, end and sample times. */
  function BandwidthSamples(entries: seq<Entry>): seq<BandwidthSample> {
    seq(|entries|, i requires 0 <= i < |entries| =>
      var k := entries[i].kernel;
      BandwidthSample(k.startTime, k.endTime, k.sampleTimestamps, BandwidthSamplesOf(entries[i].instance.details)))
  }

  function EffectivenessSamples(entries: seq<Entry>): seq<EffectivenessSample> {
    seq(|entries|, i requires 0 <= i < |entries| =>
      var d := entries[i].instance.details;
      var v := EffectivenessViewOf(d);
      EffectivenessSample(v.bandwidthEffective, v.averageBurstSize, v.cacheHit, Capabilities.Occupancy(d)))
  }

  function ChannelDepthSamples(entries: seq<Entry>): seq<ChannelDepthSample> {
    seq(|entries|, i requires 0 <= i < |entries| =>
      var v := ChannelDepthViewOf(entries[i].instance.details);
      ChannelDepthSample(v.average, v.maximum))
  }

  /**
    The metric families each section computes: global memory occupancy, stall,
    bandwidth and effectiveness; local memory occupancy and stall; channels
    occupancy, stall, bandwidth and channel depth; loops occupancy alone.
  */
  function MetricsOf(section: Section, entries: seq<Entry>): (m: Metrics)
    ensures m.stall.Some? <==> section != LoopSection
    ensures m.bandwidth.Some? <==> section == GlobalSection || section == ChannelSection
    ensures m.effectiveness.Some? <==> section == GlobalSection
    ensures m.channelDepth.Some? <==> section == ChannelSection
  {
    var occupancy := OccupancyTotals(OccupancySamples(entries));
    var stall := StallTotalsOf(StallSamples(entries));
    var bandwidth := BandwidthOf(BandwidthSamples(entries));
    match section
    case GlobalSection => Metrics(occupancy, Some(stall), Some(bandwidth), Some(EffectivenessOf(EffectivenessSamples(entries))), None)
    case LocalSection => Metrics(occupancy, Some(stall), None, None, None)
    case ChannelSection => Metrics(occupancy, Some(stall), Some(bandwidth), None, Some(ChannelDepthOf(ChannelDepthSamples(entries))))
    case LoopSection => Metrics(occupancy, None, None, None, None)
  }

  /**
    A section computes a family only over samples that expose it, so the
    empty-array reading above is never what a reported metric is made of.
  */
  lemma SectionUsesExposedFamilies(section: Section, entries: seq<Entry>)
    requires forall e | e in entries :: Selects(section, e.instance.details)
    ensures var m := MetricsOf(section, entries);
      && (m.stall.Some? ==> forall e | e in entries :: Capabilities.Stall(e.instance.details).Some?)
      && (m.bandwidth.Some? ==> forall e | e in entries :: Capabilities.Bandwidth(e.instance.details).Some?)
      && (m.effectiveness.Some? ==> forall e | e in entries :: Capabilities.Effectiveness(e.instance.details).Some?)
      && (m.channelDepth.Some? ==> forall e | e in entries :: Capabilities.ChannelDepth(e.instance.details).Some?)
  {
    var m := MetricsOf(section, entries);
    forall e | e in entries
      ensures m.stall.Some? ==> Capabilities.Stall(e.instance.details).Some?
      ensures m.bandwidth.Some? ==> Capabilities.Bandwidth(e.instance.details).Some?
      ensures m.effectiveness.Some? ==> Capabilities.Effectiveness(e.instance.details).Some?
      ensures m.channelDepth.Some? ==> Capabilities.ChannelDepth(e.instance.details).Some?
    {
      assert Selects(section, e.instance.details);
    }
  }

  /** The section's `compute`: every family it has, each by its own fold. */
  method ComputeMetrics(section: Section, entries: seq<Entry>) returns (m: Metrics)
    ensures m == MetricsOf(section, entries)
  {
    var occupancy := ComputeOccupancy(OccupancySamples(entries));
    if section == LoopSection {
      m := Metrics(occupancy, None, None, None, None);
      return;
    }
    var stall := ComputeStall(StallSamples(entries));
    if section == LocalSection {
      m := Metrics(occupancy, Some(stall), None, None, None);
      return;
    }
    var bandwidth := ComputeBandwidth(BandwidthSamples(entries));
    if section == GlobalSection {
      var effectiveness := ComputeEffectiveness(EffectivenessSamples(entries));
      m := Metrics(occupancy, Some(stall), Some(bandwidth), Some(effectiveness), None);
    } else {
      var channelDepth := ComputeChannelDepth(ChannelDepthSamples(entries));
      m := Metrics(occupancy, Some(stall), Some(bandwidth), None, Some(channelDepth));
    }
  }

  // ------------------------------------------------------------------- blocks

  /** One printed block: an instance number in expand mode, the samples, and their metrics. */
  datatype Block = Block(number: Option<nat>, entries: seq<Entry>, metrics: Metrics)

  datatype KernelBlock = KernelBlock(kernelName: string, instances: seq<Block>)

  /** Without expand, one block per source-file group; with it, one per kernel and instance. */
  datatype Body = Merged(block: Block) | Expanded(kernels: seq<KernelBlock>)

  datatype SourceGroup = SourceGroup(sourceFiles: seq<FileReference>, body: Body)

  /**
    What a block prints for its samples: the section's metrics. The structure
    below is written for any such measure, so that reasoning about the grouping
    does not unfold the metric folds.
  */
  function Measure(section: Section): seq<Entry> -> Metrics {
    entries => MetricsOf(section, entries)
  }

  /** The number printed before a block: its position from 1, when there are several. */
  function Number(several: bool, position: nat): Option<nat> {
    if several then Some(position) else None
  }

  /** One block per instance group, numbered from 1 when `several`, unnumbered otherwise. */
  function NumberedBlocks(groups: seq<Group<string, Entry>>, several: bool, measure: seq<Entry> -> Metrics): (r: seq<Block>)
    ensures |r| == |groups|
  {
    if groups == [] then []
    else
      var last := groups[|groups| - 1];
      NumberedBlocks(groups[..|groups| - 1], several, measure)
        + [Block(Number(several, |groups|), last.values, measure(last.values))]
  }

  /** Block `i` holds group `i`'s samples, its number and their measure. */
  lemma {:induction false} NumberedBlocksShape(groups: seq<Group<string, Entry>>, several: bool, measure: seq<Entry> -> Metrics)
    ensures forall i | 0 <= i < |groups| ::
      NumberedBlocks(groups, several, measure)[i] == Block(Number(several, i + 1), groups[i].values, measure(groups[i].values))
  {
    if groups != [] {
      NumberedBlocksShape(groups[..|groups| - 1], several, measure);
    }
  }

  lemma NumberedBlocksStep(groups: seq<Group<string, Entry>>, i: nat, several: bool, measure: seq<Entry> -> Metrics)
    requires i < |groups|
    ensures NumberedBlocks(groups[..i + 1], several, measure)
      == NumberedBlocks(groups[..i], several, measure) + [Block(Number(several, i + 1), groups[i].values, measure(groups[i].values))]
  {
    assert groups[..i + 1][..i] == groups[..i];
  }

  /** The blocks of one kernel: one per module-instance name, numbered only when there are several. */
  function InstanceBlocks(entries: seq<Entry>, measure: seq<Entry> -> Metrics): seq<Block> {
    var byInstance := GroupAll(entries, InstanceName, CompareStrings);
    NumberedBlocks(byInstance, |byInstance| > 1, measure)
  }

  function KernelBlocksOf(groups: seq<Group<string, Entry>>, measure: seq<Entry> -> Metrics): (r: seq<KernelBlock>)
    ensures |r| == |groups|
  {
    if groups == [] then []
    else
      var last := groups[|groups| - 1];
      KernelBlocksOf(groups[..|groups| - 1], measure) + [KernelBlock(last.key, InstanceBlocks(last.values, measure))]
  }

  lemma {:induction false} KernelBlocksShape(groups: seq<Group<string, Entry>>, measure: seq<Entry> -> Metrics)
    ensures forall k | 0 <= k < |groups| ::
      KernelBlocksOf(groups, measure)[k] == KernelBlock(groups[k].key, InstanceBlocks(groups[k].values, measure))
  {
    if groups != [] {
      KernelBlocksShape(groups[..|groups| - 1], measure);
    }
  }

  lemma KernelBlocksStep(groups: seq<Group<string, Entry>>, k: nat, measure: seq<Entry> -> Metrics)
    requires k < |groups|
    ensures KernelBlocksOf(groups[..k + 1], measure)
      == KernelBlocksOf(groups[..k], measure) + [KernelBlock(groups[k].key, InstanceBlocks(groups[k].values, measure))]
  {
    assert groups[..k + 1][..k] == groups[..k];
  }

  /** Expand mode: the group's samples by kernel name, then by module-instance name. */
  function KernelBlocks(entries: seq<Entry>, measure: seq<Entry> -> Metrics): seq<KernelBlock> {
    KernelBlocksOf(GroupAll(entries, KernelName, CompareStrings), measure)
  }

  function SourceGroupOf(expand: bool, g: Group<seq<FileReference>, Entry>, measure: seq<Entry> -> Metrics): SourceGroup {
    SourceGroup(g.key,
      if expand then Expanded(KernelBlocks(g.values, measure))
      else Merged(Block(None, g.values, measure(g.values))))
  }

  function SourceGroupsOf(expand: bool, groups: seq<Group<seq<FileReference>, Entry>>, measure: seq<Entry> -> Metrics): (r: seq<SourceGroup>)
    ensures |r| == |groups|
  {
    if groups == [] then []
    else SourceGroupsOf(expand, groups[..|groups| - 1], measure) + [SourceGroupOf(expand, groups[|groups| - 1], measure)]
  }

  lemma {:induction false} SourceGroupsShape(expand: bool, groups: seq<Group<seq<FileReference>, Entry>>, measure: seq<Entry> -> Metrics)
    ensures forall q | 0 <= q < |groups| :: SourceGroupsOf(expand, groups, measure)[q] == SourceGroupOf(expand, groups[q], measure)
  {
    if groups != [] {
      SourceGroupsShape(expand, groups[..|groups| - 1], measure);
    }
  }

  lemma SourceGroupsStep(expand: bool, groups: seq<Group<seq<FileReference>, Entry>>, q: nat, measure: seq<Entry> -> Metrics)
    requires q < |groups|
    ensures SourceGroupsOf(expand, groups[..q + 1], measure) == SourceGroupsOf(expand, groups[..q], measure) + [SourceGroupOf(expand, groups[q], measure)]
  {
    assert groups[..q + 1][..q] == groups[..q];
  }

  /** The source-file map the section's samples are folded into. */
  function SourceGroups(profile: Profile, allow: Option<seq<string>>, section: Section): seq<Group<seq<FileReference>, Entry>> {
    GroupAll(SectionEntries(profile, allow, section), SourceFiles, CompareFileReferences)
  }

  function ModuleInstanceReport(profile: Profile, allow: Option<seq<string>>, expand: bool, section: Section): seq<SourceGroup> {
    SourceGroupsOf(expand, SourceGroups(profile, allow, section), Measure(section))
  }

  /**
    A measure that agrees with the section's metrics. The agreement is stated
    so that it is used only where the metrics themselves are computed, which
    keeps the grouping loops from unfolding every metric fold.
  */
  ghost predicate Agrees(measure: seq<Entry> -> Metrics, section: Section) {
    forall entries {:trigger MetricsOf(section, entries)} :: measure(entries) == MetricsOf(section, entries)
  }

  lemma MeasureAgrees(section: Section)
    ensures Agrees(Measure(section), section)
  {
  }

  /** One block: its samples and the metrics the section computes over them. */
  method MeasureBlock(section: Section, ghost measure: seq<Entry> -> Metrics, number: Option<nat>, entries: seq<Entry>)
    returns (b: Block)
    requires Agrees(measure, section)
    ensures b == Block(number, entries, measure(entries))
  {
    var m := ComputeMetrics(section, entries);
    b := Block(number, entries, m);
  }

  method ComputeInstanceBlocks(section: Section, ghost measure: seq<Entry> -> Metrics, entries: seq<Entry>)
    returns (blocks: seq<Block>)
    requires Agrees(measure, section)
    ensures blocks == InstanceBlocks(entries, measure)
  {
    var byInstance := GroupBy(entries, InstanceName, CompareStrings);
    var several := |byInstance| > 1;
    blocks := [];
    for i := 0 to |byInstance|
      invariant blocks == NumberedBlocks(byInstance[..i], several, measure)
    {
      var b := MeasureBlock(section, measure, Number(several, i + 1), byInstance[i].values);
      NumberedBlocksStep(byInstance, i, several, measure);
      blocks := blocks + [b];
    }
    assert byInstance[..|byInstance|] == byInstance;
  }

  method ComputeKernelBlocks(section: Section, ghost measure: seq<Entry> -> Metrics, entries: seq<Entry>)
    returns (kernels: seq<KernelBlock>)
    requires Agrees(measure, section)
    ensures kernels == KernelBlocks(entries, measure)
  {
    var byKernel := GroupBy(entries, KernelName, CompareStrings);
    kernels := [];
    for k := 0 to |byKernel|
      invariant kernels == KernelBlocksOf(byKernel[..k], measure)
    {
      var instances := ComputeInstanceBlocks(section, measure, byKernel[k].values);
      KernelBlocksStep(byKernel, k, measure);
      kernels := kernels + [KernelBlock(byKernel[k].key, instances)];
    }
    assert byKernel[..|byKernel|] == byKernel;
  }

  method ComputeSourceGroup(section: Section, ghost measure: seq<Entry> -> Metrics, expand: bool, g: Group<seq<FileReference>, Entry>)
    returns (group: SourceGroup)
    requires Agrees(measure, section)
    ensures group == SourceGroupOf(expand, g, measure)
  {
    var body: Body;
    if expand {
      var kernels := ComputeKernelBlocks(section, measure, g.values);
      body := Expanded(kernels);
    } else {
      var b := MeasureBlock(section, measure, None, g.values);
      body := Merged(b);
    }
    group := SourceGroup(g.key, body);
  }

  method ComputeSourceGroups(section: Section, ghost measure: seq<Entry> -> Metrics, expand: bool, groups: seq<Group<seq<FileReference>, Entry>>)
    returns (report: seq<SourceGroup>)
    requires Agrees(measure, section)
    ensures report == SourceGroupsOf(expand, groups, measure)
  {
    report := [];
    for q := 0 to |groups|
      invariant report == SourceGroupsOf(expand, groups[..q], measure)
    {
      var group := ComputeSourceGroup(section, measure, expand, groups[q]);
      SourceGroupsStep(expand, groups, q, measure);
      report := report + [group];
    }
    assert groups[..|groups|] == groups;
  }

  /** `print_module_instances` for one section, with the output kept as structure. */
  method PrintModuleInstances(profile: Profile, allow: Option<seq<string>>, expand: bool, section: Section)
    returns (report: seq<SourceGroup>)
    ensures report == ModuleInstanceReport(profile, allow, expand, section)
  {
    var groups := GroupBy(SectionEntries(profile, allow, section), SourceFiles, CompareFileReferences);
    MeasureAgrees(section);
    report := ComputeSourceGroups(section, Measure(section), expand, groups);
  }

  // --------------------------------------------------------------- properties

  /**
    The source-file groups come in strictly ascending key order; each holds,
    in input order, exactly the reported pairs whose chain ties its key, and
    every reported pair lands in exactly one of them.
  */
  lemma SourceGroupsPartition(profile: Profile, allow: Option<seq<string>>, section: Section, groups: seq<Group<seq<FileReference>, Entry>>)
    requires groups == SourceGroups(profile, allow, section)
    ensures Grouped(groups, SectionEntries(profile, allow, section), SourceFiles, CompareFileReferences)
    ensures forall j | 0 <= j < |SectionEntries(profile, allow, section)| ::
      var e := SectionEntries(profile, allow, section)[j];
      && (exists q :: 0 <= q < |groups| && CompareFileReferences(e.instance.sourceFiles, groups[q].key) == Equal && e in groups[q].values)
      && (forall q, q' | 0 <= q < |groups| && 0 <= q' < |groups| ::
            (CompareFileReferences(e.instance.sourceFiles, groups[q].key) == Equal &&
             CompareFileReferences(e.instance.sourceFiles, groups[q'].key) == Equal) ==> q == q')
  {
    var entries := SectionEntries(profile, allow, section);
    SourceFilesTotalPreorder();
    GroupAllGrouped(entries, SourceFiles, CompareFileReferences);
    forall j | 0 <= j < |entries|
      ensures var e := entries[j];
        && (exists q :: 0 <= q < |groups| && CompareFileReferences(e.instance.sourceFiles, groups[q].key) == Equal && e in groups[q].values)
        && (forall q, q' | 0 <= q < |groups| && 0 <= q' < |groups| ::
              (CompareFileReferences(e.instance.sourceFiles, groups[q].key) == Equal &&
               CompareFileReferences(e.instance.sourceFiles, groups[q'].key) == Equal) ==> q == q')
    {
      GroupedExactlyOne(groups, entries, SourceFiles, CompareFileReferences, j);
    }
  }

  /** The report visits the source-file groups in ascending order of their chains. */
  lemma ReportAscending(profile: Profile, allow: Option<seq<string>>, expand: bool, section: Section, report: seq<SourceGroup>)
    requires report == ModuleInstanceReport(profile, allow, expand, section)
    ensures forall i, j | 0 <= i < j < |report| :: CompareFileReferences(report[i].sourceFiles, report[j].sourceFiles) == Less
  {
    var groups := SourceGroups(profile, allow, section);
    SourceGroupsPartition(profile, allow, section, groups);
    SourceGroupsShape(expand, groups, Measure(section));
    assert forall q | 0 <= q < |report| :: report[q].sourceFiles == groups[q].key;
  }

  /** A grouping by a string key: names strictly ascending, each group non-empty and holding input samples of exactly its name. */
  lemma NameGroups(entries: seq<Entry>, keyOf: Entry -> string, groups: seq<Group<string, Entry>>)
    requires groups == GroupAll(entries, keyOf, CompareStrings)
    ensures forall i, j | 0 <= i < j < |groups| :: CompareStrings(groups[i].key, groups[j].key) == Less
    ensures forall q | 0 <= q < |groups| :: groups[q].values != []
    ensures forall q, k | 0 <= q < |groups| && 0 <= k < |groups[q].values| ::
      groups[q].values[k] in entries && keyOf(groups[q].values[k]) == groups[q].key
  {
    StringsTotalOrder();
    KeyedGroups(entries, keyOf, CompareStrings, groups);
  }

  /**
    The instance blocks under a kernel: each non-empty, holding samples of one
    module-instance name, in strictly ascending name order, and numbered 1..n
    exactly when there are several.
  */
  lemma InstanceBlocksStructure(entries: seq<Entry>, measure: seq<Entry> -> Metrics, blocks: seq<Block>)
    requires blocks == InstanceBlocks(entries, measure)
    ensures forall i | 0 <= i < |blocks| :: blocks[i].entries != [] && (blocks[i].number.Some? <==> |blocks| > 1)
    ensures forall i | 0 <= i < |blocks| && |blocks| > 1 :: blocks[i].number == Some(i + 1)
    ensures forall i | 0 <= i < |blocks| :: blocks[i].metrics == measure(blocks[i].entries)
    ensures forall i, k | 0 <= i < |blocks| && 0 <= k < |blocks[i].entries| ::
      blocks[i].entries[k] in entries && blocks[i].entries[k].instance.name == blocks[i].entries[0].instance.name
    ensures forall i, j | 0 <= i < j < |blocks| ::
      CompareStrings(blocks[i].entries[0].instance.name, blocks[j].entries[0].instance.name) == Less
  {
    var byInstance := GroupAll(entries, InstanceName, CompareStrings);
    NameGroups(entries, InstanceName, byInstance);
    NumberedBlocksShape(byInstance, |byInstance| > 1, measure);
    forall i, k | 0 <= i < |blocks| && 0 <= k < |blocks[i].entries|
      ensures blocks[i].entries[k].instance.name == byInstance[i].key
    {
      assert InstanceName(byInstance[i].values[k]) == byInstance[i].key;
    }
  }

  /**
    Expand mode: kernel blocks in strictly ascending name order, each holding
    only samples of that kernel name.
  */
  lemma KernelBlocksStructure(entries: seq<Entry>, measure: seq<Entry> -> Metrics, kernels: seq<KernelBlock>)
    requires kernels == KernelBlocks(entries, measure)
    ensures forall i, j | 0 <= i < j < |kernels| :: CompareStrings(kernels[i].kernelName, kernels[j].kernelName) == Less
    ensures forall k, i, n | 0 <= k < |kernels| && 0 <= i < |kernels[k].instances| && 0 <= n < |kernels[k].instances[i].entries| ::
      kernels[k].instances[i].entries[n] in entries && kernels[k].instances[i].entries[n].kernel.name == kernels[k].kernelName
  {
    var byKernel := GroupAll(entries, KernelName, CompareStrings);
    NameGroups(entries, KernelName, byKernel);
    KernelBlocksShape(byKernel, measure);
    forall k, i, n | 0 <= k < |kernels| && 0 <= i < |kernels[k].instances| && 0 <= n < |kernels[k].instances[i].entries|
      ensures kernels[k].instances[i].entries[n] in entries && kernels[k].instances[i].entries[n].kernel.name == kernels[k].kernelName
    {
      var e := kernels[k].instances[i].entries[n];
      InstanceBlocksStructure(byKernel[k].values, measure, kernels[k].instances);
      assert e in byKernel[k].values;
      var m :| 0 <= m < |byKernel[k].values| && byKernel[k].values[m] == e;
      assert KernelName(byKernel[k].values[m]) == byKernel[k].key;
    }
  }
}
