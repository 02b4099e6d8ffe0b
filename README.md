# intel-fpga-profile-viewer, modelled in Dafny

The program reads the JSON profile written by the Intel FPGA dynamic profiler
and prints per-kernel statistics. This project models its core:

- the profile schema and how the report is decoded, including the
  empty-string placeholder for collections, the tagged unions, the
  string-encoded numbers and booleans, and the derived order of
  `FileReference`;
- which metric families each module-instance variant exposes;
- the metric folds:
  - occupancy, stall/idle/activity and effectiveness/cache hit are sums of
    zipped samples, kept as numerator and denominator;
  - channel depth keeps a sum and a maximum;
  - bandwidth is a duration-weighted integral over the merged runtime of the
    contributing kernels;
- the module-instance report:
  - kernels are kept by the allow-list;
  - samples are grouped by source-file chain;
  - in expand mode, samples are grouped again by kernel name and
    module-instance name, with instance numbering;
- the external-memory report: per (memory name, port) sums of run time and of
  duration-weighted bandwidth and burst readings.

Modules, one per file:

| file | module | what it holds |
|---|---|---|
| `wrappers.dfy` | `Wrappers` | `Option`, `Result` |
| `orderings.dfy` | `Orderings` | `Ordering`, lexicographic comparison, total (pre)orders |
| `json.dfy` | `Json` | an abstract JSON value and serde's field lookup |
| `from_str.dfy` | `FromStr` | Rust's `FromStr` for `u32`, `u64`, `i32`, `bool` and decimal `f32` |
| `paths.dfy` | `Paths` | `PathBuf`'s component order |
| `data_model.dfy` | `DataModel` | the schema and the order of `FileReference` |
| `decode.dfy` | `Decode`, `DecodeExamples` | the derived deserialisers |
| `capabilities.dfy` | `Capabilities` | the capability traits as per-variant accessors |
| `span_merge.dfy` | `SpanMerge` | the runtime merge of kernel spans, as written and corrected |
| `aggregation.dfy` | `Aggregation` | the `compute_*` folds |
| `grouping.dfy` | `Grouping` | the `BTreeMap` entry/push fold, generic in key and value |
| `report.dfy` | `Report` | `print_module_instances` |
| `external_memory.dfy` | `ExternalMemoryReport` | `print_external_memory` |

Each fold is specified by a recursive function and implemented by a method
with a loop. The method's postcondition ties it to the function. The
function's meaning is proved in separate lemmas.

## Model

| member | source | states |
|---|---|---|
| Orderings.StringsTotalOrder | src/main.rs:234-235 | `String`'s order, the key of the kernel-name and instance-name maps, is a total order |
| Json.Lookup | src/data_model.rs:1-13 | a field is `Missing` iff no member has the name; `Present` only with a member of that name and no second one |
| Json.LookupUnique | src/data_model.rs:1-13 | a name carried by exactly one member is `Present` with that member's value |
| FromStr.ParseUnsigned | src/data_model.rs:78-92 | a string parses iff, after an optional leading `+`, it is a non-empty digit string whose value is below the bound, and then to that value; a digit string at or above the bound is an error |
| FromStr.UnsignedRoundTrip | src/data_model.rs:78-92 | the decimal spelling of every in-range natural parses back to it |
| FromStr.ParseI32 | src/data_model.rs:93-94 | a string parses iff, after an optional leading `+` or `-`, it is a non-empty digit string whose value, negated after a `-`, lies in the `i32` range, and then to that value; a negative value needs a leading `-` |
| FromStr.I32RoundTrip | src/data_model.rs:93-94 | the decimal spelling of every `i32`, negative ones with `-`, parses back to it |
| FromStr.ParseBool | src/data_model.rs:99-100 | only `"true"` and `"false"` are accepted, and the value is true iff the string is `"true"` |
| FromStr.DigitsParseAsF32 | src/data_model.rs:130-131 | a digit string parses as an `f32` equal to its decimal value |
| FromStr.F32NeedsDigit | src/data_model.rs:130-131 | an accepted `f32` string holds at least one digit |
| FromStr.DecimalValue | src/data_model.rs:78-100 | the decimal spelling of a natural has the natural as its value |
| Paths.PathsTotalPreorder | src/data_model.rs:193 | `PathBuf`'s order is a total preorder, and two paths tie exactly when their components are equal |
| Paths.ComponentTotalOrder | src/data_model.rs:193 | the order on path components is a total order |
| Paths.ExampleComponents | src/data_model.rs:193 | `a/b`, `a//b` and `a/b/` have the same components; `a.b` is one component |
| Paths.SeparatorSpellings | src/data_model.rs:193 | repeated and trailing separators do not change a path's place in the order |
| Paths.ComponentOrderExample | src/data_model.rs:193 | paths compare by component, not as strings: `a/b` sorts before `a.b` although the strings sort the other way |
| Paths.RelativeComponents | src/data_model.rs:193 | a path that starts with neither `/` nor `.` has no root or current-directory component, only those of its segments |
| DataModel.FileReferencesFlip | src/data_model.rs:188-201 | swapping the operands of the derived order flips the result |
| DataModel.FileReferencesChains | src/data_model.rs:188-201 | the derived order on chains of file references is transitive |
| DataModel.FileReferencesEqual | src/data_model.rs:188-201 | two chains tie exactly when they name the same locations, component by component |
| DataModel.SourceFilesTotalPreorder | src/data_model.rs:188-201 | the grouping key of module instances is a total preorder whose ties are exactly equal normalised chains |
| Decode.Field | src/data_model.rs:1-13 | a struct field decodes iff it is present exactly once, and then to its value |
| Decode.Collect | src/data_model.rs:82-98 | a `Vec` decodes iff every element does, elementwise and in order |
| Decode.DecodeArray | src/data_model.rs:82-98 | an array value decodes iff it is an array and every item decodes, to those items in order |
| Decode.DefaultArrayField | src/data_model.rs:84-86 | a missing `#[serde(default)]` array decodes to the empty sequence |
| Decode.EmptyStringAsEmptyVec | src/data_model.rs:29-59 | the empty string gives no elements, a non-empty string and any non-array non-string are errors, an array decodes element by element |
| Decode.Tag | src/data_model.rs:61-62 | a tag is read only from an object whose tag field is present and a string (integer variant indices are left out) |
| Decode.DecodeFileReference | src/data_model.rs:188-201 | a decoded reference came from an object, its line is below 2^32, a missing `callsite` gives none and a missing `column_num` gives `None` |
| Decode.DecodeColumn | src/data_model.rs:196-198 | a missing or null column is `None`; a present one is below 2^32 |
| Decode.DecodeOperationType | src/data_model.rs:295-301 | only `"read"` and `"write"` decode, to `Read` and `Write` |
| Decode.DecodeGlobal | src/data_model.rs:217-244 | a missing `cache_hit_samples` decodes to no samples |
| Decode.DecodeDetails | src/data_model.rs:203-215 | the details decode only under a `mem_type` tag among the four, and the variant is the one that tag names |
| Decode.DecodeChild | src/data_model.rs:134-145 | a child decodes only under a `type` tag among `moduleinst`, `globalmem`, `extmem`, and the variant is the one that tag names |
| Decode.DecodeKernel | src/data_model.rs:73-102 | a missing `command_queue_ids` decodes to no ids |
| Decode.DecodeNode | src/data_model.rs:61-71 | a node decodes only under a `type` tag among `kernel`, `board`, `memtransfers`, `runinfo`, and the variant is the one that tag names |
| Decode.DecodeNodes | src/data_model.rs:22-27 | a `Nodes` object decodes through the placeholder rule applied to its `nodes` field |
| Decode.DecodeProfile | src/data_model.rs:1-13 | a decoded profile came from an object, and each of its five collections is the decoded `Nodes` of the field of that name |
| Decode.ProfileOfFields | src/data_model.rs:1-13 | when every field decodes, the profile is built from exactly those fields |
| DecodeExamples.VersionsExample | src/data_model.rs:15-20 | a versions object with both strings decodes to them |
| DecodeExamples.PlaceholderNodes | src/data_model.rs:22-27 | `{"nodes": ""}` decodes to no nodes |
| DecodeExamples.PlaceholderField | src/data_model.rs:6-12 | a collection field holding the placeholder decodes to no nodes |
| DecodeExamples.PlaceholderProfile | src/data_model.rs:1-13 | a report whose five collections are all placeholders decodes to a profile with empty collections |
| Capabilities.Occupancy | src/module_instance_details.rs:28-45 | every variant exposes occupancy, and the accessor returns the stored samples |
| Capabilities.Interaction | src/module_instance_details.rs:3-26 | present exactly for Global, Local and Channel, with their stored operation type and coalescing flag |
| Capabilities.Stall | src/module_instance_details.rs:47-76 | present exactly for Global, Local and Channel, with their stored stall, idle and activity samples |
| Capabilities.Bandwidth | src/module_instance_details.rs:78-95 | present exactly for Global and Channel, with their stored bandwidth samples |
| Capabilities.Effectiveness | src/module_instance_details.rs:97-126 | present exactly for Global, with its stored effective-bandwidth, cache-hit and burst samples |
| Capabilities.ChannelDepth | src/module_instance_details.rs:128-151 | present exactly for Channel, with its stored average and maximum depth samples |
| SpanMerge.InsertSpan | src/main.rs:462 | inserting into the ordered set keeps it strictly ascending and adds exactly the new span |
| SpanMerge.SortedSpans | src/main.rs:460-463 | the collected set is strictly ascending by (start, end) and holds exactly the input spans |
| SpanMerge.SortedSpansDependOnlyOnElements | src/main.rs:460-463 | the set, and so the merge, does not depend on the order or repetition of the kernels |
| SpanMerge.MergeSpans | src/main.rs:464-479 | the in-place stack fold as written computes `MergeFold` |
| SpanMerge.MergeSeparated | src/main.rs:464-479 | as written, each merged span starts strictly after the previous merged end |
| SpanMerge.MergeWellFormed | src/main.rs:464-481 | as written, over well-formed spans ordered by start, every merged span is well formed and the merged starts strictly increase |
| SpanMerge.MergeAtMostNaive | src/main.rs:464-481 | as written, the merged runtime is at most the sum of the span lengths |
| SpanMerge.NestedSpanShrinks | src/main.rs:469-472 | as written, spans 0..100 and 10..20 merge to 0..20: the runtime is 20, and a covered point is lost |
| SpanMerge.UnionSpans | src/main.rs:464-479 | the in-place stack fold, keeping the larger end, computes `UnionFold` |
| SpanMerge.UnionCoversExactly | src/main.rs:464-479 | over spans ordered by start, the corrected stack covers exactly the time points the spans cover, and its spans are separated |
| SpanMerge.UnionWellFormed | src/main.rs:464-481 | the corrected stack of well-formed spans is well formed, so the subtraction at line 481 cannot underflow |
| SpanMerge.UnionStartsIncrease | src/main.rs:464-479 | the corrected stack's starts strictly increase |
| SpanMerge.UnionAtMostNaive | src/main.rs:464-481 | the corrected runtime is at most the sum of the span lengths |
| SpanMerge.TotalRuntimeBounds | src/main.rs:460-481 | for well-formed spans the runtime is between 0 and the sum of the lengths of the distinct spans |
| SpanMerge.RuntimeExample | src/main.rs:460-481 | spans 0..100, 50..150 and 200..250 merge to 0..150 and 200..250, a runtime of 200 |
| SpanMerge.NestedSpanKept | src/main.rs:464-481 | with the correction, 0..100 and 10..20 merge to 0..100, a runtime of 100 |
| SpanMerge.MergeAgreesWhenEndsGrow | src/main.rs:464-479 | when no span ends before an earlier one, the fold as written and the corrected fold agree |
| Aggregation.SampleOccupancy | src/main.rs:404-409 | one sample's loop sums occupancy and cycles over the positions the zip pairs |
| Aggregation.ComputeOccupancy | src/main.rs:404-411 | the occupancy fold computes `OccupancyTotals` |
| Aggregation.OccupancyConcat | src/main.rs:404-409 | the totals of two groups of samples together are the sums of their totals |
| Aggregation.OccupancyCutToShorter | src/main.rs:405-407 | samples beyond the end of the shorter array do not count |
| Aggregation.OccupancyAtMostCycles | src/main.rs:404-411 | when no position is busy for more cycles than elapsed, occupancy is at most 100 % |
| Aggregation.OccupancyExample | src/main.rs:404-411 | busy for 5, 10 and 0 of 10 cycles, with an unpaired fourth sample, gives 15 of 30 |
| Aggregation.SampleStall | src/main.rs:419-431 | one sample's loop sums stall, idle, activity and cycles over the positions all four pair |
| Aggregation.ComputeStall | src/main.rs:419-436 | the stall fold computes `StallTotalsOf` |
| Aggregation.StallSharesOccupancyCycles | src/main.rs:419-436 | when stall and occupancy pair the same positions, their cycles denominators agree |
| Aggregation.SampleBurst | src/main.rs:491-500 | one sample's loop counts the (effective bandwidth, burst) pairs and sums both |
| Aggregation.BurstFold | src/main.rs:491-500 | the first effectiveness fold computes the count and the two sums of `EffectivenessOf` |
| Aggregation.SampleCacheHit | src/main.rs:502-509 | one sample's loop sets the presence flag iff it pairs a position, and sums cache hits and occupancy over those positions |
| Aggregation.CacheHitFold | src/main.rs:502-509 | the second effectiveness fold computes the presence flag and the two sums of `EffectivenessOf` |
| Aggregation.ComputeEffectiveness | src/main.rs:491-523 | both folds together compute `EffectivenessOf` |
| Aggregation.CacheHitPresence | src/main.rs:502-523 | the cache-hit line is printed iff some sample pairs a (cache hit, occupancy) position; otherwise both sums are 0 |
| Aggregation.NumberOfSamplesCountsPairs | src/main.rs:491-509 | the sample count, the presence flag and all four sums (effective bandwidth, burst size, cache hit, occupancy) add up over a split of the group |
| Aggregation.SampleChannelDepth | src/main.rs:531-540 | one sample's loop counts pairs, sums the average depths and takes the maximum of the maximum depths |
| Aggregation.ComputeChannelDepth | src/main.rs:531-544 | the channel-depth fold computes `ChannelDepthOf` |
| Aggregation.MaximumDepthIsMaximum | src/main.rs:531-544 | the maximum is 0 with no pairs, at least every paired maximum-depth sample, and one of them otherwise |
| Aggregation.MaxOfIsMaximum | src/main.rs:540 | the running maximum is at least every element, is 0 for none and is one of the elements otherwise |
| Aggregation.Zip | src/main.rs:447-451 | the zip is as long as the shorter input and pairs elements index by index |
| Aggregation.Intervals | src/main.rs:447-449 | there is one interval per timestamp; interval i ends at timestamp i and starts at the previous timestamp, the first at the kernel start |
| Aggregation.IntervalsZipPrevious | src/main.rs:447-449 | the intervals are the zip of the start time followed by the timestamps with the timestamps |
| Aggregation.NoUnderflow | src/main.rs:452-455 | when the start time and the timestamps are nondecreasing, no interval duration is negative |
| Aggregation.DurationsTelescope | src/main.rs:447-456 | the durations add up to the last timestamp minus the kernel start |
| Aggregation.SampleIntegral | src/main.rs:451-456 | one sample's loop is the duration-weighted sum of its paired bandwidth readings |
| Aggregation.IntegralFold | src/main.rs:444-458 | the outer loop sums the per-sample integrals |
| Aggregation.RuntimeFold | src/main.rs:460-481 | the kernel spans are collected into the ordered set, merged with the corrected fold and their lengths summed |
| Aggregation.ComputeBandwidth | src/main.rs:439-484 | the bandwidth fold computes the integral and the runtime of `BandwidthOf` |
| Aggregation.WeightedConstant | src/main.rs:451-456 | a constant reading weighs by the sum of the durations |
| Aggregation.ConstantBandwidthIntegral | src/main.rs:444-458 | a constant bandwidth integrates to that bandwidth times the time from the kernel start to the last timestamp |
| Grouping.Position | src/main.rs:215 | the search position lies past exactly the keys below the new key: every earlier key is below it, and the key at the position is not |
| Grouping.InsertAt | src/main.rs:215-216 | after `entry().or_insert_with().push()`, a tied group gets the value appended, otherwise a new one-value group is inserted at the search position; every other group is unchanged |
| Grouping.InsertAscending | src/main.rs:213-219 | pushing into an ascending map keeps it ascending |
| Grouping.InsertGrouped | src/main.rs:213-219 | pushing one value keeps the map a grouping of the longer input |
| Grouping.GroupAllGrouped | src/main.rs:213-219 | the fold builds an ascending map whose groups hold exactly, in input order, the values whose key ties theirs, with every value covered |
| Grouping.ExactlyOneGroup | src/main.rs:213-219 | every value lands in exactly one group |
| Grouping.MatchingKeysTie | src/main.rs:213-219 | a group's values come from the input and carry keys that tie the group's |
| Grouping.KeyedGroups | src/main.rs:230-239 | under a total order keys ascend strictly, groups are non-empty and hold input values carrying exactly their key |
| Grouping.InsertInto | src/main.rs:215-216 | the loop over the map's entries computes `Insert` |
| Grouping.GroupBy | src/main.rs:213-219 | the fold over the samples computes `GroupAll` |
| Report.KeptKernels | src/main.rs:192-200 | the kept kernels are exactly the kernel nodes whose names the allow-list keeps; with no list, all of them |
| Report.KernelEntries | src/main.rs:201-212 | one kernel's entries are exactly its module-instance children of the section's variant |
| Report.Entries | src/main.rs:201-212 | the entries of several kernels are exactly each kernel's entries |
| Report.SectionEntriesExactly | src/main.rs:192-212 | a (kernel, module instance) pair is reported iff the kernel is a kernel node of the profile kept by the allow-list and the instance is one of its children of the section's variant |
| Report.MetricsOf | src/main.rs:308-397 | each section computes exactly its metric families: stall except for loops, bandwidth for global and channel, effectiveness for global, channel depth for channels |
| Report.SectionUsesExposedFamilies | src/main.rs:308-397 | a family is computed only over samples whose variant exposes it |
| Report.ComputeMetrics | src/main.rs:319-325 | the section's `compute` calls the folds its variant has and computes `MetricsOf` |
| Report.MeasureBlock | src/main.rs:251-274 | one printed block holds its samples and the metrics computed over them |
| Report.ComputeInstanceBlocks | src/main.rs:245-263 | the instance loop computes `InstanceBlocks` |
| Report.ComputeKernelBlocks | src/main.rs:230-264 | the kernel loop computes `KernelBlocks` |
| Report.ComputeSourceGroup | src/main.rs:228-276 | one source-file group's body is merged, or expanded by kernel and instance, as `expand` says |
| Report.ComputeSourceGroups | src/main.rs:222-277 | the loop over the source-file map computes `SourceGroupsOf` |
| Report.PrintModuleInstances | src/main.rs:185-278 | the whole section computes `ModuleInstanceReport` |
| Report.SourceGroupsPartition | src/main.rs:213-219 | the source-file groups are a grouping of the reported pairs: ascending, in input order, each pair in exactly one group |
| Report.ReportAscending | src/main.rs:222 | the report visits the source-file groups in strictly ascending order of their chains |
| Report.NameGroups | src/main.rs:230-239 | grouping by a name gives strictly ascending names, non-empty groups and samples of exactly that name |
| Report.InstanceBlocksStructure | src/main.rs:245-263 | instance blocks are non-empty, one name each, ascending by name, numbered 1..n exactly when there are several, and measured over their own samples |
| Report.KernelBlocksStructure | src/main.rs:230-264 | kernel blocks come in strictly ascending name order, each holding only samples of that kernel |
| ExternalMemoryReport.KernelContributions | src/main.rs:117-124 | one kernel contributes exactly its external-memory children, paired with it |
| ExternalMemoryReport.Contributions | src/main.rs:117-124 | several kernels contribute exactly each kernel's contributions |
| ExternalMemoryReport.SectionContributionsExactly | src/main.rs:108-124 | a (kernel, memory) pair contributes iff the kernel is a kernel node kept by the allow-list and the memory is one of its external-memory children |
| ExternalMemoryReport.ConstantReadingsUsage | src/main.rs:125-151 | constant readings weigh by the time from the kernel start to the last timestamp; the time is end minus start |
| ExternalMemoryReport.KeysTotalOrder | src/main.rs:152-158 | the nested (name, port) map order is a total order |
| ExternalMemoryReport.AccumulateAt | src/main.rs:155-163 | adding to a present (name, port) sums into its row; an absent one gets a new row at its place; no other row changes |
| ExternalMemoryReport.AccumulateInsert | src/main.rs:152-166 | one step of the running sums equals one push into the grouping, each group summed |
| ExternalMemoryReport.AccumulateAllGroups | src/main.rs:152-166 | the running sums equal grouping the contributions by (name, port) and summing each group |
| ExternalMemoryReport.RowsSumTheirPort | src/main.rs:152-174 | rows come in strictly ascending (name, port) order, and each row is the sum of exactly the contributions of its name and port |
| ExternalMemoryReport.RowsCoverContributions | src/main.rs:152-166 | every contribution has its row |
| ExternalMemoryReport.RunTimesAdd | src/main.rs:147-160 | two kernels of 100 time units on one port give a time of 200: run times are added, not merged |
| ExternalMemoryReport.WeightedFold | src/main.rs:135-145 | the inner fold computes the three duration-weighted sums over the paired intervals |
| ExternalMemoryReport.MeasureUsage | src/main.rs:125-151 | one contribution's run time and weighted sums are `UsageOf` |
| ExternalMemoryReport.AccumulateInto | src/main.rs:152-166 | the search and update of one map entry computes `Accumulate` |
| ExternalMemoryReport.PrintExternalMemory | src/main.rs:106-166 | the whole fold computes `ExternalMemoryRows` |

## Left out

- Reading the file and parsing JSON text. Decoding starts from an abstract JSON value.
- Command-line parsing. The kernel allow-list and the expand flag are parameters.
- All printing and `format_file_references`. The reports are returned as structures instead.
- `print_boards` and `print_run_information`: they only filter variants and print them.
- `f32` arithmetic: the final divisions, NaN on a zero denominator, rounding, and the `{:.2}` formatting.
  - Ratios are kept as numerator and denominator.
  - Real-valued readings and sums are exact reals.
  - `f32` parsing covers decimal numerals with an optional fraction and exponent, but not `inf`, `nan` or rounding.
- Unsigned arithmetic is unbounded: `u64` sums cannot overflow. `end_time - start_time` and interval durations are integer differences, so the model does not show an underflow panic, except where a lemma states the condition that rules it out.
- `PathBuf` comparison follows Unix rules only: `/` separators and a leading root. Windows prefixes are not modelled.
- serde's handling of `null` for non-optional fields is not modelled beyond the column number. Unknown fields are ignored, as serde does by default (`Json.Lookup` only looks at the named field).
- Report.StallViewOf, BandwidthSamplesOf, EffectivenessViewOf, ChannelDepthViewOf: a variant that lacks a family reads as empty arrays. This case cannot arise in the program, which only ever asks for families the section's variant has (`Report.SectionUsesExposedFamilies`).
- Grouping.InsertInto and ExternalMemoryReport.AccumulateInto: each `BTreeMap` is a sequence of entries ascending by key, searched linearly from the smallest key. The tree and its balancing are not modelled.
- ExternalMemoryReport: the nested map (name → port → sums) is one map keyed by the (name, port) pair, in lexicographic order. This gives the same iteration order.
- `cache_hit_samples` is declared `f32` (src/data_model.rs:237) but summed into `u64` accumulators (src/main.rs:506-509). As written, src/main.rs:509 adds an `f32` to a `u64` and does not type-check in Rust. Reading the samples as naturals is this model's choice, not something the program computes.
- Decode.DecodeProfile: only the object form of the struct is decoded. serde also decodes a struct from a JSON array of its fields in declaration order, with trailing `#[serde(default)]` fields optional. The model returns an error for that form, and its contract states that a decoded profile came from an object.
- Decode.DecodeFileReference: only the object form is decoded; the array form such as `["a.cl", "3"]`, which serde accepts for the struct, is an error in the model.
- Decode.DecodeNodes: only the object form is decoded; the array form such as `[""]` is an error in the model.
- Decode.DecodeVersions: only the object form is decoded; the array form such as `["1", "2"]` is an error in the model.
- Decode.Tag: the tag of an internally tagged enum is read only from an object field holding a string. serde also accepts an array whose first element is the tag, followed by the variant's fields in order. Inside buffered content (every node sits under the untagged `nodes` helper) it also reads an integer tag as the index of a variant in declaration order. The model rejects both forms.
- Decode.DecodeNode: the array form of the `type`-tagged `Node` enum and an integer `type` (0 to 3 for `kernel` to `runinfo`) are not decoded, because Decode.Tag reads only string fields of objects.
- Decode.DecodeChild: the array form of the `type`-tagged child enum and an integer `type` (0 to 2 for `moduleinst` to `extmem`) are not decoded, because Decode.Tag reads only string fields of objects.
- Decode.DecodeDetails: the array form of the `mem_type`-tagged details enum and an integer `mem_type` (0 to 3 in declaration order) are not decoded, because Decode.Tag reads only string fields of objects.
- Decode.DecodeOperationType: only the string form of the unit variants is decoded. serde also accepts the map form such as `{"read": null}`, which the model rejects.
- Decode.DecodeGlobal: `cache_hit_samples` strings are parsed as `u64`, so a string with a fraction, an exponent or a minus sign, such as `"97.5"`, makes the whole profile an error, where the program's `f32` field accepts it.
- The cycles array is passed through `.flatten()` at src/main.rs:407 and 424. `.flatten()` over an iterator of `&u64` does not type-check in Rust as written. Reading it as the plain sequence of cycle counts is this model's choice.
- Aggregation.RuntimeFold, Aggregation.ComputeBandwidth, Report.MetricsOf, Report.ComputeMetrics and Report.PrintModuleInstances: the bandwidth runtime uses the corrected merge, not the fold as written (see Findings). When one kernel span lies inside another, the model's bandwidth denominator can be larger than the program's: 0..100 and 10..20 give 100 against 20. A later span can hide the difference, as 0..100, 10..20 and 15..200 give 200 in both.

## Findings

| source | as written | input that shows it | evidently intended | confidence | as-written member | corrected member |
|---|---|---|---|---|---|---|
| src/main.rs:469-472 | a span that starts within the top of the stack overwrites the top's end with its own end, even when it ends earlier | kernels 0..100 and 10..20: the merged stack is 0..20, so the runtime is 20 instead of 100 and the bandwidth is overstated fivefold | the top's end becomes the larger of the two ends, so the merged stack covers the union of the spans | not executed | SpanMerge.NestedSpanShrinks | SpanMerge.UnionCoversExactly |
