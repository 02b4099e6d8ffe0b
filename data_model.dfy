/**
  The profile schema: a tree of tagged unions read once from the profiler's
  JSON report and never changed afterwards. Unsigned fields (`u32`, `u64`) are
  naturals, whose bounds the decoder establishes; `f32` fields are reals.
*/
module DataModel {
  import opened Wrappers
  import opened Orderings
  import Paths

  datatype Profile = Profile(
    jsonType: string,
    versions: Versions,
    kernels: Nodes,
    boards: Nodes,
    memoryTransfers: Nodes,
    channels: Nodes,
    runInformation: Nodes)

  datatype Versions = Versions(profilerJsonVersion: string, aocxVersion: string)

  /** Every top-level collection is one of these, so every one accepts the empty-string placeholder. */
  datatype Nodes = Nodes(nodes: seq<Node>)

  /** Chosen by the `type` tag: `kernel`, `board`, `memtransfers` or `runinfo`. */
  datatype Node =
    | KernelNode(kernel: Kernel)
    | BoardNode(board: Board)
    | MemoryTransfersNode(memoryTransfers: MemoryTransfers)
    | RunInformationNode(runInformation: RunInformation)

  datatype Kernel = Kernel(
    name: string,
    computeUnit: nat,
    sourceFile: FileReference,
    deviceIds: seq<nat>,
    commandQueueIds: seq<nat>,
    startTime: nat,
    endTime: nat,
    numSamples: nat,
    sharedCounterRunType: int,
    sampleTimestamps: seq<nat>,
    totalCyclesBetweenSamples: seq<nat>,
    isAutorun: bool,
    children: seq<Child>)

  datatype Board = Board(boardType: string, children: seq<Child>)

  datatype MemoryTransfers = MemoryTransfers(
    typeTransfer: string,
    deviceId: nat,
    commandQueueId: nat,
    startTime: nat,
    endTime: nat)

  datatype RunInformation = RunInformation(fmax: real)

  /** Chosen by the `type` tag: `moduleinst`, `globalmem` or `extmem`. */
  datatype Child =
    | ModuleInstanceChild(moduleInstance: ModuleInstance)
    | GlobalMemoryChild(globalMemory: GlobalMemory)
    | ExternalMemoryChild(externalMemory: ExternalMemory)

  datatype ModuleInstance = ModuleInstance(
    name: string,
    sourceFiles: seq<FileReference>,
    details: ModuleInstanceDetails)

  datatype GlobalMemory = GlobalMemory(
    globalMemoryName: string,
    maximumTheoreticalGlobalMemoryBandwidth: real,
    maximumBurstCount: real)

  datatype ExternalMemory = ExternalMemory(
    name: string,
    interface: string,
    port: string,
    globalUsedBandwidth: seq<real>,
    averageWriteBurst: seq<real>,
    averageReadBurst: seq<real>)

  /** A source location; `callsite` is the chain it was inlined through, empty at top level. */
  datatype FileReference = FileReference(
    fileName: string,
    line: nat,
    columnNumber: Option<nat>,
    callsite: seq<FileReference>)

  /** Chosen by the `mem_type` tag: `__global`, `__local`, `__channel` or `__loop`. */
  datatype ModuleInstanceDetails =
    | GlobalDetails(global: Global)
    | LocalDetails(local: Local)
    | ChannelDetails(channel: Channel)
    | LoopDetails(loop: Loop)

  datatype Global = Global(
    operationType: OperationType,
    occupancySamples: seq<nat>,
    stallSamples: seq<nat>,
    idleSamples: seq<nat>,
    activitySamples: seq<nat>,
    bandwidthSamples: seq<real>,
    bandwidthEffectiveSamples: seq<real>,
    cacheHitSamples: seq<nat>,
    coalescedMemory: bool,
    globalMemoryName: string,
    averageBurstSize: seq<real>)

  datatype Local = Local(
    operationType: OperationType,
    occupancySamples: seq<nat>,
    stallSamples: seq<nat>,
    idleSamples: seq<nat>,
    activitySamples: seq<nat>,
    coalescedMemory: bool)

  datatype Channel = Channel(
    operationType: OperationType,
    occupancySamples: seq<nat>,
    stallSamples: seq<nat>,
    idleSamples: seq<nat>,
    averageChannelDepthSamples: seq<real>,
    maximumChannelDepthSamples: seq<nat>,
    activitySamples: seq<nat>,
    bandwidthSamples: seq<real>,
    coalescedMemory: bool)

  datatype Loop = Loop(occupancySamples: seq<nat>)

  datatype OperationType = Read | Write

  // The derived `Ord` of `FileReference`, the grouping key of module instances.

  /** `Option`'s order: `None` before every `Some`. */
  function CompareColumns(a: Option<nat>, b: Option<nat>): Ordering {
    match (a, b)
    case (None, None) => Equal
    case (None, Some(_)) => Less
    case (Some(_), None) => Greater
    case (Some(x), Some(y)) => CompareInt(x, y)
  }

  /** Lexicographic on (file name, line, column, callsite chain), fields in declaration order. */
  function CompareFileReference(a: FileReference, b: FileReference): Ordering
    decreases a
  {
    Paths.ComparePaths(a.fileName, b.fileName)
      .Then(CompareInt(a.line, b.line))
      .Then(CompareColumns(a.columnNumber, b.columnNumber))
      .Then(CompareFileReferences(a.callsite, b.callsite))
  }

  /** The order of `Vec<FileReference>`: lexicographic, a proper prefix first. */
  function CompareFileReferences(a: seq<FileReference>, b: seq<FileReference>): Ordering
    decreases a
  {
    if a == [] then (if b == [] then Equal else Less)
    else if b == [] then Greater
    else CompareFileReference(a[0], b[0]).Then(CompareFileReferences(a[1..], b[1..]))
  }

  /** A file reference with its path reduced to components: exactly what the order compares. */
  datatype Location = Location(
    path: seq<Paths.Component>,
    line: nat,
    column: Option<nat>,
    callsite: seq<Location>)

  function Normalize(a: FileReference): Location
    decreases a
  {
    Location(Paths.Components(a.fileName), a.line, a.columnNumber, NormalizeAll(a.callsite))
  }

  function NormalizeAll(a: seq<FileReference>): (r: seq<Location>)
    decreases a
    ensures |r| == |a|
  {
    if a == [] then [] else [Normalize(a[0])] + NormalizeAll(a[1..])
  }

  lemma {:induction false} FileReferenceFlip(a: FileReference, b: FileReference)
    ensures CompareFileReference(b, a) == CompareFileReference(a, b).Flip()
    decreases a
  {
    Paths.PathsTotalPreorder();
    assert Paths.ComparePaths(b.fileName, a.fileName) == Paths.ComparePaths(a.fileName, b.fileName).Flip();
    FileReferencesFlip(a.callsite, b.callsite);
  }

  lemma {:induction false} FileReferencesFlip(a: seq<FileReference>, b: seq<FileReference>)
    ensures CompareFileReferences(b, a) == CompareFileReferences(a, b).Flip()
    decreases a
  {
    if a != [] && b != [] {
      FileReferenceFlip(a[0], b[0]);
      FileReferencesFlip(a[1..], b[1..]);
    }
  }

  lemma {:induction false} FileReferenceChains(a: FileReference, b: FileReference, c: FileReference)
    ensures Chains(CompareFileReference(a, b), CompareFileReference(b, c), CompareFileReference(a, c))
    decreases a
  {
    var p1, p2, p3 := Paths.ComparePaths(a.fileName, b.fileName), Paths.ComparePaths(b.fileName, c.fileName), Paths.ComparePaths(a.fileName, c.fileName);
    var l1, l2, l3 := CompareInt(a.line, b.line), CompareInt(b.line, c.line), CompareInt(a.line, c.line);
    var c1, c2, c3 := CompareColumns(a.columnNumber, b.columnNumber), CompareColumns(b.columnNumber, c.columnNumber), CompareColumns(a.columnNumber, c.columnNumber);
    var s1, s2, s3 := CompareFileReferences(a.callsite, b.callsite), CompareFileReferences(b.callsite, c.callsite), CompareFileReferences(a.callsite, c.callsite);
    assert Chains(p1, p2, p3) by {
      Paths.PathsChain(a.fileName, b.fileName, c.fileName);
    }
    assert Chains(l1, l2, l3) && Chains(c1, c2, c3);
    assert Chains(s1, s2, s3) by {
      FileReferencesChains(a.callsite, b.callsite, c.callsite);
    }
    ThenChains(p1, p2, p3, l1, l2, l3);
    ThenChains(p1.Then(l1), p2.Then(l2), p3.Then(l3), c1, c2, c3);
    ThenChains(p1.Then(l1).Then(c1), p2.Then(l2).Then(c2), p3.Then(l3).Then(c3), s1, s2, s3);
  }

  lemma {:induction false} FileReferencesChains(a: seq<FileReference>, b: seq<FileReference>, c: seq<FileReference>)
    ensures Chains(CompareFileReferences(a, b), CompareFileReferences(b, c), CompareFileReferences(a, c))
    decreases a
  {
    if a != [] && b != [] && c != [] {
      FileReferenceChains(a[0], b[0], c[0]);
      FileReferencesChains(a[1..], b[1..], c[1..]);
      ThenChains(CompareFileReference(a[0], b[0]), CompareFileReference(b[0], c[0]), CompareFileReference(a[0], c[0]),
        CompareFileReferences(a[1..], b[1..]), CompareFileReferences(b[1..], c[1..]), CompareFileReferences(a[1..], c[1..]));
    }
  }

  lemma {:induction false} FileReferenceEqual(a: FileReference, b: FileReference)
    ensures CompareFileReference(a, b) == Equal <==> Normalize(a) == Normalize(b)
    decreases a
  {
    Paths.PathsTotalPreorder();
    FileReferencesEqual(a.callsite, b.callsite);
  }

  lemma {:induction false} FileReferencesEqual(a: seq<FileReference>, b: seq<FileReference>)
    ensures CompareFileReferences(a, b) == Equal <==> NormalizeAll(a) == NormalizeAll(b)
    decreases a
  {
    if a != [] && b != [] {
      FileReferenceEqual(a[0], b[0]);
      FileReferencesEqual(a[1..], b[1..]);
      var na, nb := NormalizeAll(a), NormalizeAll(b);
      assert na[0] == Normalize(a[0]) && na[1..] == NormalizeAll(a[1..]);
      assert nb[0] == Normalize(b[0]) && nb[1..] == NormalizeAll(b[1..]);
      if na[0] == nb[0] && na[1..] == nb[1..] {
        assert na == [na[0]] + na[1..] && nb == [nb[0]] + nb[1..];
      }
    }
  }

  /**
    The key of the module-instance grouping is a total preorder, and two keys
    tie exactly when they name the same locations component by component.
  */
  lemma SourceFilesTotalPreorder()
    ensures TotalPreorder(CompareFileReferences)
    ensures forall a, b :: CompareFileReferences(a, b) == Equal <==> NormalizeAll(a) == NormalizeAll(b)
  {
    forall a, b ensures CompareFileReferences(b, a) == CompareFileReferences(a, b).Flip() {
      FileReferencesFlip(a, b);
    }
    forall a, b, c | CompareFileReferences(a, b) != Greater && CompareFileReferences(b, c) != Greater
      ensures CompareFileReferences(a, c) != Greater
    {
      FileReferencesChains(a, b, c);
    }
    forall a, b ensures CompareFileReferences(a, b) == Equal <==> NormalizeAll(a) == NormalizeAll(b) {
      FileReferencesEqual(a, b);
    }
  }
}
