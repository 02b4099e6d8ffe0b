/**
  Which sample variant exposes which metric family, and the accessors that hand
  out the stored arrays. In the program this is fixed at compile time by which
  structs implement which trait; here an accessor that a variant does not
  implement answers `None`.

  | variant | Interaction | Occupancy | Stall | Bandwidth | Effectiveness | ChannelDepth |
  |---------|-------------|-----------|-------|-----------|---------------|--------------|
  | Global  | yes         | yes       | yes   | yes       | yes           | no           |
  | Local   | yes         | yes       | yes   | no        | no            | no           |
  | Channel | yes         | yes       | yes   | yes       | no            | yes          |
  | Loop    | no          | yes       | no    | no        | no            | no           |
*/
module Capabilities {
  import opened Wrappers
  import opened DataModel

  datatype InteractionView = InteractionView(operationType: OperationType, coalescedMemory: bool)

  datatype StallView = StallView(stall: seq<nat>, idle: seq<nat>, activity: seq<nat>)

  datatype EffectivenessView = EffectivenessView(
    bandwidthEffective: seq<real>,
    cacheHit: seq<nat>,
    averageBurstSize: seq<real>)

  datatype ChannelDepthView = ChannelDepthView(average: seq<real>, maximum: seq<nat>)

  /** Every variant has occupancy samples. */
  function Occupancy(d: ModuleInstanceDetails): (r: seq<nat>)
    ensures d.GlobalDetails? ==> r == d.global.occupancySamples
    ensures d.LocalDetails? ==> r == d.local.occupancySamples
    ensures d.ChannelDetails? ==> r == d.channel.occupancySamples
    ensures d.LoopDetails? ==> r == d.loop.occupancySamples
  {
    match d
    case GlobalDetails(g) => g.occupancySamples
    case LocalDetails(l) => l.occupancySamples
    case ChannelDetails(c) => c.occupancySamples
    case LoopDetails(l) => l.occupancySamples
  }

  /** Operation type and coalescing: every variant but Loop. */
  function Interaction(d: ModuleInstanceDetails): (r: Option<InteractionView>)
    ensures r.Some? <==> !d.LoopDetails?
    ensures d.GlobalDetails? ==> r == Some(InteractionView(d.global.operationType, d.global.coalescedMemory))
    ensures d.LocalDetails? ==> r == Some(InteractionView(d.local.operationType, d.local.coalescedMemory))
    ensures d.ChannelDetails? ==> r == Some(InteractionView(d.channel.operationType, d.channel.coalescedMemory))
  {
    match d
    case GlobalDetails(g) => Some(InteractionView(g.operationType, g.coalescedMemory))
    case LocalDetails(l) => Some(InteractionView(l.operationType, l.coalescedMemory))
    case ChannelDetails(c) => Some(InteractionView(c.operationType, c.coalescedMemory))
    case LoopDetails(_) => None
  }

  /** Stall, idle and activity samples: every variant but Loop. */
  function Stall(d: ModuleInstanceDetails): (r: Option<StallView>)
    ensures r.Some? <==> !d.LoopDetails?
    ensures d.GlobalDetails? ==> r == Some(StallView(d.global.stallSamples, d.global.idleSamples, d.global.activitySamples))
    ensures d.LocalDetails? ==> r == Some(StallView(d.local.stallSamples, d.local.idleSamples, d.local.activitySamples))
    ensures d.ChannelDetails? ==> r == Some(StallView(d.channel.stallSamples, d.channel.idleSamples, d.channel.activitySamples))
  {
    match d
    case GlobalDetails(g) => Some(StallView(g.stallSamples, g.idleSamples, g.activitySamples))
    case LocalDetails(l) => Some(StallView(l.stallSamples, l.idleSamples, l.activitySamples))
    case ChannelDetails(c) => Some(StallView(c.stallSamples, c.idleSamples, c.activitySamples))
    case LoopDetails(_) => None
  }

  /** Bandwidth samples: Global and Channel only. */
  function Bandwidth(d: ModuleInstanceDetails): (r: Option<seq<real>>)
    ensures r.Some? <==> d.GlobalDetails? || d.ChannelDetails?
    ensures d.GlobalDetails? ==> r == Some(d.global.bandwidthSamples)
    ensures d.ChannelDetails? ==> r == Some(d.channel.bandwidthSamples)
  {
    match d
    case GlobalDetails(g) => Some(g.bandwidthSamples)
    case ChannelDetails(c) => Some(c.bandwidthSamples)
    case _ => None
  }

  /** Effective bandwidth, cache hits and burst sizes: Global only. */
  function Effectiveness(d: ModuleInstanceDetails): (r: Option<EffectivenessView>)
    ensures r.Some? <==> d.GlobalDetails?
    ensures d.GlobalDetails? ==> r == Some(EffectivenessView(
      d.global.bandwidthEffectiveSamples, d.global.cacheHitSamples, d.global.averageBurstSize))
  {
    match d
    case GlobalDetails(g) => Some(EffectivenessView(g.bandwidthEffectiveSamples, g.cacheHitSamples, g.averageBurstSize))
    case _ => None
  }

  /** Average and maximum channel depth: Channel only. */
  function ChannelDepth(d: ModuleInstanceDetails): (r: Option<ChannelDepthView>)
    ensures r.Some? <==> d.ChannelDetails?
    ensures d.ChannelDetails? ==> r == Some(ChannelDepthView(
      d.channel.averageChannelDepthSamples, d.channel.maximumChannelDepthSamples))
  {
    match d
    case ChannelDetails(c) => Some(ChannelDepthView(c.averageChannelDepthSamples, c.maximumChannelDepthSamples))
    case _ => None
  }
}
