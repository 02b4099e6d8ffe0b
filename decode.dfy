/**
  What the derived `serde` decoders of the profile accept and what they build,
  over an already parsed JSON tree. Every numeric and boolean leaf is a JSON
  string decoded by `FromStr`; unions are chosen by a tag field; a field
  marked default may be absent; an unknown tag, a missing field, a field
  given twice or a leaf of the wrong JSON type is a fatal schema error.
  Unknown fields are ignored. Structs and tagged unions are decoded from
  their object form only, and a tag must be a string; serde's array form of
  structs and enums, integer variant indices as tags and the map form of
  unit variants are not modelled.
*/
module Decode {
  import opened Wrappers
  import opened Json
  import opened FromStr
  import opened DataModel

  /** A field the struct requires. */
  function Field(members: seq<(string, Value)>, name: string): (r: Result<Value>)
    ensures r.Ok? <==> Lookup(members, name).Present?
    ensures r.Ok? ==> r.value == Lookup(members, name).value
  {
    match Lookup(members, name)
    case Missing => Err("missing field `" + name + "`")
    case Duplicate => Err("duplicate field `" + name + "`")
    case Present(v) => Ok(v)
  }

  function StringValue(v: Value): Result<string> {
    if v.String? then Ok(v.s) else Err("invalid type: expected a string")
  }

  function StringField(members: seq<(string, Value)>, name: string): Result<string> {
    var v :- Field(members, name);
    StringValue(v)
  }

  /** `serde_with::DisplayFromStr`: the JSON value must be a string, and `parse` decodes it. */
  function FromStrValue<T>(v: Value, parse: string -> Result<T>): (r: Result<T>)
    ensures r.Ok? ==> v.String? && parse(v.s) == r
  {
    if v.String? then parse(v.s) else Err("invalid type: expected a string")
  }

  function FromStrField<T>(members: seq<(string, Value)>, name: string, parse: string -> Result<T>): Result<T> {
    var v :- Field(members, name);
    FromStrValue(v, parse)
  }

  /** All results, or the first error among them. */
  function Collect<T>(results: seq<Result<T>>): (r: Result<seq<T>>)
    ensures r.Ok? <==> forall i | 0 <= i < |results| :: results[i].Ok?
    ensures r.Ok? ==> |r.value| == |results| && forall i | 0 <= i < |results| :: results[i] == Ok(r.value[i])
  {
    if results == [] then Ok([])
    else if results[0].Err? then Err(results[0].message)
    else
      var rest :- Collect(results[1..]);
      Ok([results[0].value] + rest)
  }

  /** A `Vec` field: a JSON array decoded element by element, in order. */
  function DecodeArray<T>(v: Value, decode: Value -> Result<T>): (r: Result<seq<T>>)
    ensures r.Ok? <==> v.Array? && forall i | 0 <= i < |v.items| :: decode(v.items[i]).Ok?
    ensures r.Ok? ==> |r.value| == |v.items| && forall i | 0 <= i < |v.items| :: decode(v.items[i]) == Ok(r.value[i])
  {
    if v.Array? then
      var results := seq(|v.items|, i requires 0 <= i < |v.items| => decode(v.items[i]));
      assert forall i | 0 <= i < |v.items| :: results[i] == decode(v.items[i]);
      Collect(results)
    else Err("invalid type: expected a sequence")
  }

  function ArrayField<T>(members: seq<(string, Value)>, name: string, decode: Value -> Result<T>): Result<seq<T>> {
    var v :- Field(members, name);
    DecodeArray(v, decode)
  }

  /** A `Vec` field marked `#[serde(default)]`: absent means empty. */
  function DefaultArrayField<T>(members: seq<(string, Value)>, name: string, decode: Value -> Result<T>): (r: Result<seq<T>>)
    ensures Lookup(members, name).Missing? ==> r == Ok([])
  {
    match Lookup(members, name)
    case Missing => Ok([])
    case Duplicate => Err("duplicate field `" + name + "`")
    case Present(v) => DecodeArray(v, decode)
  }

  function FromStrArrayField<T>(members: seq<(string, Value)>, name: string, parse: string -> Result<T>): Result<seq<T>> {
    ArrayField(members, name, (e: Value) => FromStrValue(e, parse))
  }

  /**
    `empty_string_as_empty_vec`: the value is first tried as a string, then as
    an array. The empty string is the empty collection; any other string is an
    error; an array decodes as a plain `Vec` would.
  */
  function EmptyStringAsEmptyVec<T>(v: Value, decode: Value -> Result<T>): (r: Result<seq<T>>)
    ensures v == String("") ==> r == Ok([])
    ensures v.String? && v.s != "" ==> r.Err?
    ensures v.Array? ==> r == DecodeArray(v, decode)
    ensures !v.String? && !v.Array? ==> r.Err?
  {
    if v.String? then
      (if v.s == "" then Ok([]) else Err("non-empty string instead of array not supported"))
    else DecodeArray(v, decode)
  }

  /** The tag of an internally tagged union: a string field of the object. */
  function Tag(v: Value, tagName: string): (r: Result<string>)
    ensures r.Ok? ==> v.Object? && Lookup(v.members, tagName) == Present(String(r.value))
  {
    if !v.Object? then Err("invalid type: expected an object")
    else
      var t :- Field(v.members, tagName);
      StringValue(t)
  }

  function DecodeFileReference(v: Value): (r: Result<FileReference>)
    decreases v
    ensures r.Ok? ==> v.Object?
    ensures r.Ok? ==> r.value.line < U32_BOUND
    ensures r.Ok? && Lookup(v.members, "callsite").Missing? ==> r.value.callsite == []
    ensures r.Ok? && Lookup(v.members, "column_num").Missing? ==> r.value.columnNumber == None
  {
    if !v.Object? then Err("invalid type: expected struct FileReference")
    else
      var fileName :- StringField(v.members, "filename");
      var line :- FromStrField(v.members, "line", ParseU32);
      var column :- DecodeColumn(Lookup(v.members, "column_num"));
      var callsite :- match Lookup(v.members, "callsite")
        case Missing => Ok([])
        case Duplicate => Err("duplicate field `callsite`")
        case Present(c) =>
          if !c.Array? then Err("invalid type: expected a sequence")
          else
            var i :| 0 <= i < |v.members| && v.members[i] == ("callsite", c);
            assert v.members[i].1 == c;
            Collect(seq(|c.items|, j requires 0 <= j < |c.items| => DecodeFileReference(c.items[j])));
      Ok(FileReference(fileName, line, column, callsite))
  }

  /** `Option<DisplayFromStr>` with a default: absent or `null` is `None`. */
  function DecodeColumn(lookup: FieldLookup): (r: Result<Option<nat>>)
    ensures lookup.Missing? || lookup == Present(Null) ==> r == Ok(None)
    ensures r.Ok? && r.value.Some? ==> r.value.value < U32_BOUND
  {
    match lookup
    case Missing => Ok(None)
    case Duplicate => Err("duplicate field `column_num`")
    case Present(c) =>
      if c.Null? then Ok(None)
      else
        var n :- FromStrValue(c, ParseU32);
        Ok(Some(n))
  }

  /** `OperationType`, a lower-case unit variant: `read` or `write`. */
  function DecodeOperationType(v: Value): (r: Result<OperationType>)
    ensures r.Ok? <==> v == String("read") || v == String("write")
    ensures r.Ok? ==> (r.value == Read <==> v == String("read"))
  {
    if v == String("read") then Ok(Read)
    else if v == String("write") then Ok(Write)
    else Err("unknown variant, expected `read` or `write`")
  }

  function OperationTypeField(members: seq<(string, Value)>): Result<OperationType> {
    var v :- Field(members, "operation_type");
    DecodeOperationType(v)
  }

  function U64Array(members: seq<(string, Value)>, name: string): Result<seq<nat>> {
    FromStrArrayField(members, name, ParseU64)
  }

  function F32Array(members: seq<(string, Value)>, name: string): Result<seq<real>> {
    FromStrArrayField(members, name, ParseF32)
  }

  function DecodeGlobal(members: seq<(string, Value)>): (r: Result<Global>)
    ensures r.Ok? && Lookup(members, "cache_hit_samples").Missing? ==> r.value.cacheHitSamples == []
  {
    var operationType :- OperationTypeField(members);
    var occupancy :- U64Array(members, "occupancy_samples");
    var stall :- U64Array(members, "stall_samples");
    var idle :- U64Array(members, "idle_samples");
    var activity :- U64Array(members, "activity_samples");
    var bandwidth :- F32Array(members, "bandwidth_samples");
    var bandwidthEffective :- F32Array(members, "bandwidth_eff_samples");
    var cacheHit :- DefaultArrayField(members, "cache_hit_samples", (e: Value) => FromStrValue(e, ParseU64));
    var coalesced :- FromStrField(members, "coalesced_memory", ParseBool);
    var memoryName :- StringField(members, "global_mem_name");
    var burst :- F32Array(members, "average_burst_size");
    Ok(Global(operationType, occupancy, stall, idle, activity, bandwidth, bandwidthEffective,
      cacheHit, coalesced, memoryName, burst))
  }

  function DecodeLocal(members: seq<(string, Value)>): Result<Local> {
    var operationType :- OperationTypeField(members);
    var occupancy :- U64Array(members, "occupancy_samples");
    var stall :- U64Array(members, "stall_samples");
    var idle :- U64Array(members, "idle_samples");
    var activity :- U64Array(members, "activity_samples");
    var coalesced :- FromStrField(members, "coalesced_memory", ParseBool);
    Ok(Local(operationType, occupancy, stall, idle, activity, coalesced))
  }

  function DecodeChannel(members: seq<(string, Value)>): Result<Channel> {
    var operationType :- OperationTypeField(members);
    var occupancy :- U64Array(members, "occupancy_samples");
    var stall :- U64Array(members, "stall_samples");
    var idle :- U64Array(members, "idle_samples");
    var averageDepth :- F32Array(members, "average_channel_depth_samples");
    var maximumDepth :- FromStrArrayField(members, "max_channel_depth_samples", ParseU32);
    var activity :- U64Array(members, "activity_samples");
    var bandwidth :- F32Array(members, "bandwidth_samples");
    var coalesced :- FromStrField(members, "coalesced_memory", ParseBool);
    Ok(Channel(operationType, occupancy, stall, idle, averageDepth, maximumDepth, activity, bandwidth, coalesced))
  }

  function DecodeLoop(members: seq<(string, Value)>): Result<Loop> {
    var occupancy :- U64Array(members, "occupancy_samples");
    Ok(Loop(occupancy))
  }

  const DetailsTags: set<string> := {"__global", "__local", "__channel", "__loop"}

  /** `ModuleInstanceDetails`, chosen by the `mem_type` tag. */
  function DecodeDetails(v: Value): (r: Result<ModuleInstanceDetails>)
    ensures r.Ok? ==> Tag(v, "mem_type").Ok? && Tag(v, "mem_type").value in DetailsTags
    ensures r.Ok? ==> (r.value.GlobalDetails? <==> Tag(v, "mem_type") == Ok("__global"))
    ensures r.Ok? ==> (r.value.LocalDetails? <==> Tag(v, "mem_type") == Ok("__local"))
    ensures r.Ok? ==> (r.value.ChannelDetails? <==> Tag(v, "mem_type") == Ok("__channel"))
    ensures r.Ok? ==> (r.value.LoopDetails? <==> Tag(v, "mem_type") == Ok("__loop"))
  {
    var tag :- Tag(v, "mem_type");
    if tag == "__global" then
      var g :- DecodeGlobal(v.members);
      Ok(GlobalDetails(g))
    else if tag == "__local" then
      var l :- DecodeLocal(v.members);
      Ok(LocalDetails(l))
    else if tag == "__channel" then
      var c :- DecodeChannel(v.members);
      Ok(ChannelDetails(c))
    else if tag == "__loop" then
      var l :- DecodeLoop(v.members);
      Ok(LoopDetails(l))
    else Err("unknown variant `" + tag + "`")
  }

  function DecodeModuleInstance(members: seq<(string, Value)>): Result<ModuleInstance> {
    var name :- StringField(members, "name");
    var sourceFiles :- ArrayField(members, "sourcefiles", DecodeFileReference);
    var details :- Field(members, "module_inst_details");
    var decoded :- DecodeDetails(details);
    Ok(ModuleInstance(name, sourceFiles, decoded))
  }

  function DecodeGlobalMemory(members: seq<(string, Value)>): Result<GlobalMemory> {
    var name :- StringField(members, "global_memory_name");
    var bandwidth :- FromStrField(members, "max_theoretical_globalmem_bw", ParseF32);
    var burst :- FromStrField(members, "max_burst_count", ParseF32);
    Ok(GlobalMemory(name, bandwidth, burst))
  }

  function DecodeExternalMemory(members: seq<(string, Value)>): Result<ExternalMemory> {
    var name :- StringField(members, "name");
    var interface :- StringField(members, "interface");
    var port :- StringField(members, "port");
    var bandwidth :- F32Array(members, "global_used_bw");
    var writeBurst :- F32Array(members, "avg_write_burst");
    var readBurst :- F32Array(members, "avg_read_burst");
    Ok(ExternalMemory(name, interface, port, bandwidth, writeBurst, readBurst))
  }

  const ChildTags: set<string> := {"moduleinst", "globalmem", "extmem"}

  /** `Child`, chosen by the `type` tag. */
  function DecodeChild(v: Value): (r: Result<Child>)
    ensures r.Ok? ==> Tag(v, "type").Ok? && Tag(v, "type").value in ChildTags
    ensures r.Ok? ==> (r.value.ModuleInstanceChild? <==> Tag(v, "type") == Ok("moduleinst"))
    ensures r.Ok? ==> (r.value.GlobalMemoryChild? <==> Tag(v, "type") == Ok("globalmem"))
    ensures r.Ok? ==> (r.value.ExternalMemoryChild? <==> Tag(v, "type") == Ok("extmem"))
  {
    var tag :- Tag(v, "type");
    if tag == "moduleinst" then
      var m :- DecodeModuleInstance(v.members);
      Ok(ModuleInstanceChild(m))
    else if tag == "globalmem" then
      var g :- DecodeGlobalMemory(v.members);
      Ok(GlobalMemoryChild(g))
    else if tag == "extmem" then
      var e :- DecodeExternalMemory(v.members);
      Ok(ExternalMemoryChild(e))
    else Err("unknown variant `" + tag + "`")
  }

  function DecodeKernel(members: seq<(string, Value)>): (r: Result<Kernel>)
    ensures r.Ok? && Lookup(members, "command_queue_ids").Missing? ==> r.value.commandQueueIds == []
  {
    var name :- StringField(members, "name");
    var computeUnit :- FromStrField(members, "compute_unit", ParseU32);
    var sourceFileValue :- Field(members, "sourcefile");
    var sourceFile :- DecodeFileReference(sourceFileValue);
    var deviceIds :- FromStrArrayField(members, "device_ids", ParseU32);
    var commandQueueIds :- DefaultArrayField(members, "command_queue_ids", (e: Value) => FromStrValue(e, ParseU32));
    var startTime :- FromStrField(members, "start_time", ParseU64);
    var endTime :- FromStrField(members, "end_time", ParseU64);
    var numSamples :- FromStrField(members, "num_samples", ParseU32);
    var sharedCounterRunType :- FromStrField(members, "shared_counter_run_type", ParseI32);
    var sampleTimestamps :- U64Array(members, "sample_timestamps");
    var totalCycles :- U64Array(members, "total_cycles_between_samples");
    var isAutorun :- FromStrField(members, "is_autorun", ParseBool);
    var children :- ArrayField(members, "children", DecodeChild);
    Ok(Kernel(name, computeUnit, sourceFile, deviceIds, commandQueueIds, startTime, endTime, numSamples,
      sharedCounterRunType, sampleTimestamps, totalCycles, isAutorun, children))
  }

  function DecodeBoard(members: seq<(string, Value)>): Result<Board> {
    var boardType :- StringField(members, "board_type");
    var children :- ArrayField(members, "children", DecodeChild);
    Ok(Board(boardType, children))
  }

  function DecodeMemoryTransfers(members: seq<(string, Value)>): Result<MemoryTransfers> {
    var typeTransfer :- StringField(members, "type_transfer");
    var deviceId :- FromStrField(members, "device_id", ParseU32);
    var commandQueueId :- FromStrField(members, "command_queue_id", ParseU32);
    var startTime :- FromStrField(members, "start_time", ParseU64);
    var endTime :- FromStrField(members, "end_time", ParseU64);
    Ok(MemoryTransfers(typeTransfer, deviceId, commandQueueId, startTime, endTime))
  }

  function DecodeRunInformation(members: seq<(string, Value)>): Result<RunInformation> {
    var fmax :- FromStrField(members, "fmax", ParseF32);
    Ok(RunInformation(fmax))
  }

  const NodeTags: set<string> := {"kernel", "board", "memtransfers", "runinfo"}

  /** `Node`, chosen by the `type` tag. */
  function DecodeNode(v: Value): (r: Result<Node>)
    ensures r.Ok? ==> Tag(v, "type").Ok? && Tag(v, "type").value in NodeTags
    ensures r.Ok? ==> (r.value.KernelNode? <==> Tag(v, "type") == Ok("kernel"))
    ensures r.Ok? ==> (r.value.BoardNode? <==> Tag(v, "type") == Ok("board"))
    ensures r.Ok? ==> (r.value.MemoryTransfersNode? <==> Tag(v, "type") == Ok("memtransfers"))
    ensures r.Ok? ==> (r.value.RunInformationNode? <==> Tag(v, "type") == Ok("runinfo"))
  {
    var tag :- Tag(v, "type");
    if tag == "kernel" then
      var k :- DecodeKernel(v.members);
      Ok(KernelNode(k))
    else if tag == "board" then
      var b :- DecodeBoard(v.members);
      Ok(BoardNode(b))
    else if tag == "memtransfers" then
      var m :- DecodeMemoryTransfers(v.members);
      Ok(MemoryTransfersNode(m))
    else if tag == "runinfo" then
      var i :- DecodeRunInformation(v.members);
      Ok(RunInformationNode(i))
    else Err("unknown variant `" + tag + "`")
  }

  /** `Nodes`: an object whose `nodes` field is an array of nodes or the empty-string placeholder. */
  function DecodeNodes(v: Value): (r: Result<Nodes>)
    ensures r.Ok? ==> v.Object? && Lookup(v.members, "nodes").Present?
    ensures r.Ok? ==> EmptyStringAsEmptyVec(Lookup(v.members, "nodes").value, DecodeNode) == Ok(r.value.nodes)
    ensures v.Object? && Lookup(v.members, "nodes") == Present(String("")) ==> r == Ok(Nodes([]))
  {
    if !v.Object? then Err("invalid type: expected struct Nodes")
    else
      var nodes :- Field(v.members, "nodes");
      var decoded :- EmptyStringAsEmptyVec(nodes, DecodeNode);
      Ok(Nodes(decoded))
  }

  function NodesField(members: seq<(string, Value)>, name: string): Result<Nodes> {
    var v :- Field(members, name);
    DecodeNodes(v)
  }

  function DecodeVersions(v: Value): Result<Versions> {
    if !v.Object? then Err("invalid type: expected struct Versions")
    else
      var profilerJsonVersion :- StringField(v.members, "profiler_json_version");
      var aocxVersion :- StringField(v.members, "aocx_version");
      Ok(Versions(profilerJsonVersion, aocxVersion))
  }

  /** The whole report; every top-level collection goes through `Nodes`. */
  function DecodeProfile(v: Value): (r: Result<Profile>)
    ensures r.Ok? ==> v.Object?
    ensures r.Ok? ==> NodesField(v.members, "kernels") == Ok(r.value.kernels)
    ensures r.Ok? ==> NodesField(v.members, "boards") == Ok(r.value.boards)
    ensures r.Ok? ==> NodesField(v.members, "memtransfers") == Ok(r.value.memoryTransfers)
    ensures r.Ok? ==> NodesField(v.members, "channels") == Ok(r.value.channels)
    ensures r.Ok? ==> NodesField(v.members, "run_info") == Ok(r.value.runInformation)
  {
    if !v.Object? then Err("invalid type: expected struct Profile")
    else
      var jsonType :- StringField(v.members, "json_type");
      var versionsValue :- Field(v.members, "versions");
      var versions :- DecodeVersions(versionsValue);
      var kernels :- NodesField(v.members, "kernels");
      var boards :- NodesField(v.members, "boards");
      var memoryTransfers :- NodesField(v.members, "memtransfers");
      var channels :- NodesField(v.members, "channels");
      var runInformation :- NodesField(v.members, "run_info");
      Ok(Profile(jsonType, versions, kernels, boards, memoryTransfers, channels, runInformation))
  }

  /** When every field decodes, the report decodes to a profile built from exactly those fields. */
  lemma ProfileOfFields(members: seq<(string, Value)>, jsonType: string, versionsValue: Value, versions: Versions,
                        kernels: Nodes, boards: Nodes, memoryTransfers: Nodes, channels: Nodes, runInformation: Nodes)
    requires StringField(members, "json_type") == Ok(jsonType)
    requires Field(members, "versions") == Ok(versionsValue) && DecodeVersions(versionsValue) == Ok(versions)
    requires NodesField(members, "kernels") == Ok(kernels) && NodesField(members, "boards") == Ok(boards)
    requires NodesField(members, "memtransfers") == Ok(memoryTransfers) && NodesField(members, "channels") == Ok(channels)
    requires NodesField(members, "run_info") == Ok(runInformation)
    ensures DecodeProfile(Object(members))
      == Ok(Profile(jsonType, versions, kernels, boards, memoryTransfers, channels, runInformation))
  {
  }
}

module DecodeExamples {
  import opened Wrappers
  import opened Json
  import opened DataModel
  import opened Decode

  function Placeholder(): Value {
    Object([("nodes", String(""))])
  }

  lemma VersionsExample(profilerVersion: string, aocxVersion: string)
    ensures DecodeVersions(Object([("profiler_json_version", String(profilerVersion)), ("aocx_version", String(aocxVersion))]))
      == Ok(Versions(profilerVersion, aocxVersion))
  {
    var versions: seq<(string, Value)> := [("profiler_json_version", String(profilerVersion)), ("aocx_version", String(aocxVersion))];
    LookupUnique(versions, "profiler_json_version", 0);
    LookupUnique(versions, "aocx_version", 1);
  }

  lemma PlaceholderNodes()
    ensures DecodeNodes(Placeholder()) == Ok(Nodes([]))
  {
    LookupUnique([("nodes", String(""))], "nodes", 0);
  }

  /** The field `key` holds an object whose `nodes` field is the empty string. */
  predicate HoldsPlaceholder(members: seq<(string, Value)>, key: string) {
    var field := Lookup(members, key);
    field.Present? && field.value.Object? && Lookup(field.value.members, "nodes") == Present(String(""))
  }

  lemma StringFieldPresent(members: seq<(string, Value)>, key: string, s: string)
    requires Lookup(members, key) == Present(String(s))
    ensures StringField(members, key) == Ok(s)
  {
  }

  /** A collection field holding the placeholder decodes to no nodes. */
  lemma PlaceholderField(members: seq<(string, Value)>, key: string)
    requires HoldsPlaceholder(members, key)
    ensures NodesField(members, key) == Ok(Nodes([]))
  {
    var v := Lookup(members, key).value;
    assert Field(members, key) == Ok(v);
    assert DecodeNodes(v) == Ok(Nodes([]));
  }

  /**
    A report whose every collection is the empty-string placeholder decodes,
    whatever else its object holds, to empty collections.
  */
  lemma PlaceholderProfile(members: seq<(string, Value)>, jsonType: string, versionsValue: Value, versions: Versions)
    requires Lookup(members, "json_type") == Present(String(jsonType))
    requires Lookup(members, "versions") == Present(versionsValue) && DecodeVersions(versionsValue) == Ok(versions)
    requires HoldsPlaceholder(members, "kernels") && HoldsPlaceholder(members, "boards")
    requires HoldsPlaceholder(members, "memtransfers") && HoldsPlaceholder(members, "channels")
    requires HoldsPlaceholder(members, "run_info")
    ensures DecodeProfile(Object(members))
      == Ok(Profile(jsonType, versions, Nodes([]), Nodes([]), Nodes([]), Nodes([]), Nodes([])))
  {
    StringFieldPresent(members, "json_type", jsonType);
    assert Field(members, "versions") == Ok(versionsValue);
    PlaceholderField(members, "kernels");
    PlaceholderField(members, "boards");
    PlaceholderField(members, "memtransfers");
    PlaceholderField(members, "channels");
    PlaceholderField(members, "run_info");
    var none := Nodes([]);
    ProfileOfFields(members, jsonType, versionsValue, versions, none, none, none, none, none);
  }
}
