# Verification of the xav muxing, parsing and encoding protocols

xav splits a video into chunks, encodes them in parallel, and joins video, audio, subtitles and
chapters into one Matroska file. These Dafny modules model the parts where correctness rests on
agreement between distant pieces of code, and prove that agreement for every input and every run.
`dafny verify dfyconfig.toml` checks the whole project.

## What is modelled

**The Matroska muxer.** A first pass plans every octet: cluster sizes, seek offsets, cue positions
and the width of the position fields depend on each other and are solved by iteration. A second pass
stores into regions of exactly the planned size, without bounds checks.

- `Bytes`, `Ebml`, `EbmlRead`, `Crc`: octets and in-place stores, the EBML printer, an independent
  EBML parser, and CRC-32 from its bit-level definition with its combination law.
- `Chapters`, `ChapterRead`, `Utf8Texts`: the Chapters element, its writer, and the reader that finds the
  chapter languages in a finished file.
- `Timestamps`, `ClusterPlans`, `Layouts`, `Headers`, `HeaderWrite`: frame times, the split of the
  packets over clusters, the fixpoint of the size equations, and the writers of the header elements.
- `Ranges`, `Blocks`, `ClusterSinks`, `Schedules`, `ClusterBuild`, `ClusterOrder`: block groups with
  nested checksums, the cluster's cursor with its running checksum, the interleaving of the tracks.
- `MatroskaFiles`, `Indexes`, `Muxer`: the whole file. Every offset written is where its element
  lands, a reader following SeekHead or Cues arrives there, and the file has the planned length.
- `Identifiers`, `BlockRead`, `ClusterRead`, `ChapterBack`, `FileRead`: the file as a player reads it, with
  identifiers and fields taken from RFC 9559. Every header element, chapter, cluster and packet comes back
  as it was given, with its time, track, duration and data, and every checksum is right.

**The H.26x front end.** `Rbsp`, `BitReaders`, `AnnexB` recover NAL units and codewords; `Pocs`,
`SliceHeaders`, `Ranks` recover picture order and turn it into display numbers, and `ChunkRuns` runs
a whole chunk from its octets to its ranked frames; `NalKinds` and `SliceExamples` tie unit types and slice
headers to the tables of the standards. `NalStates`, `FrameContents` and `NalEmit` collect the units into
frames: one for each slice, holding what comes with it. `ParamSets`, `Inlining`, `SetRuns`, `InlineSets` move
parameter sets into the codec-private record and back into the stream, keeping the
octets active at every slice under every identifier.

**Concurrency.** `PinPools` (lock-free stack), `Mutexes` (three-state futex lock), `PkgPools`
(bitmap of slots behind a semaphore) and `TqPipeline` (decoder, coordinator, encoders and metric
workers of the target-quality search) are state machines over any number of threads; each theorem
holds in every state of every run. `TqSearch`, `TqOutcome` and `TqPlateaus` are the search itself; `TqRuns` lets it
judge the pipeline and bounds every run.

**Audio and scenes.** `Audio`, `AudioStream`, `FusedEncoding`: streaming encoding gives the octets of
batch encoding. `AudioTracks` says which samples those are, `AudioHistory` which frames each packet is encoded
from, and `OpusStreams` reads them back. `Scenes`: the scene list restricted to frame ranges.

## What turned out false, and when it holds

- **A metric that rises with the quantizer** (the "butter" mode). The completion test of
  `src/enc.rs:1057-1063` takes a second probe that agrees with a rising score for a contradiction, so
  such a search never probes a third time. It settles on a converged quantizer if and only if one of
  its first two picks converges (`TqOutcome.RisesStops`, `TqOutcome.RisesFinds`; a concrete miss is
  `TqOutcome.RisesCanMiss`). With a falling score it always finds one (`TqOutcome.FindsConverged`).
- **A score that stays the same** from one quantizer to another. Equal scores count as a contradiction too, so a
  search over a score that does not rise settles on a converged quantizer, if there is one, if and only if
  no score comes twice (`TqPlateaus.PlateauMisses`; a concrete miss is `TqPlateaus.PlateauExample`).
- **A block's time** is stored in sixteen bits: a player gets the packet's own time if and only if that is
  less than 32768 ms from the cluster's (`ClusterRead.TimesBack`). An audio packet's length is stored in
  sixteen bits too, and comes back if and only if it is below 65536 (`OpusStreams.LengthBack`).
- **Display order.** Picture order counts are sorted as unsigned 32-bit keys, so the ranks follow the
  counts if and only if the chunk does not mix negative with other counts (`Ranks.RankOrder`; two
  frames that swap are `Ranks.MixedSwaps`).
- **Streaming audio** equals batch audio if and only if the track has samples: on an empty track the
  batch still writes the stream's head (`FusedEncoding.DifferOnEmpty`).
- **Recovery points inside a chunk.** Every CRA picture (in H.266 every IRAP or GDR picture) is taken
  as a restart of the count. One that continues a coded video sequence keeps its true count if and only
  if that lies in `0..2^log2` (`Pocs.RestartAgrees`, a concrete loss in `Pocs.RestartLosesUpperBits`);
  IDR and BLA pictures start a sequence and lose nothing. Elsewhere a run is recovered if and only if
  each picture is within half a period of the reference before it (`Pocs.RunRecovered`).
- **Parameter sets behind the last slice of a chunk** belong to no frame. What is active at a slice is
  preserved if and only if leaving those sets out does not change it (`SetRuns.SetsPreserved`; a concrete
  loss is `SetRuns.UnusedLost`; without such sets all is preserved, `SetRuns.AllPreserved`). Without
  inlining it is preserved if and only if it is the first set of its kind in the stream
  (`SetRuns.PlainPreserved`).

## Conditions the theorems carry

- `Layouts.Fits`: the file stays below the largest size EBML can state even if every field is at its
  widest. It bounds the input, not the iteration.
- `Schedules.Timed`: no packet has the time `u64::MAX`, which the code uses for "nothing left".
- `ClusterPlans.AscendingPads`: pads are listed by ascending packet number, as
  `src/copy.rs:220-226` pushes them.
- `Inlining.ChunkOk`: each chunk has a slice, and each kind of parameter set it carries has come before
  its first slice.
- `ChunkRuns.Encoded`: each slice of a chunk carries the header fields of the picture it codes, escaped.
- `TqRuns.Judged`: a scoring completes its chunk exactly in the last round of the chunk's own search.

## Model

| member | source | states |
|---|---|---|
| Ebml.VintSizeLeast | src/mkv/ebml.rs:2-5 | the size of a length field is the least octet count that can hold the value without the reserved all-ones pattern (RFC 8794 section 6) |
| Ebml.UintSizeLeast | src/mkv/element.rs:41-48 | an unsigned integer takes the least octet count that holds it, and at least one |
| Ebml.SintSizeLeast | src/mkv/element.rs:79-86 | a signed integer takes the least octet count whose two's complement range holds it |
| Ebml.UintRoundTrip | src/mkv/element.rs:64-68 | big-endian decoding of the stored octets gives the unsigned value back |
| Ebml.SintRoundTrip | src/mkv/element.rs:90-94 | two's complement decoding of the stored octets gives the signed value back |
| Ebml.VintEncode | src/mkv/ebml.rs:9-17 | the in-place writer stores exactly the length field's octets and nothing else |
| Ebml.WriteId | src/mkv/element.rs:30-38 | the ID's octets are stored at the cursor, the rest of the buffer is untouched |
| Ebml.WriteBytes | src/mkv/element.rs:52-60 | a complete element with the given content is stored |
| Ebml.WriteUint | src/mkv/element.rs:64-68 | a complete unsigned element of the planned size is stored |
| Ebml.WriteUintWidth | src/mkv/element.rs:73-76 | an unsigned element of a pinned width is stored |
| Ebml.WriteSint | src/mkv/element.rs:90-94 | a complete signed element of the planned size is stored |
| EbmlRead.ReadIdBack | src/mkv/read.rs:127-138 | the parser reads back every EBML ID the printer writes, whatever follows |
| EbmlRead.ReadSizeBack | src/mkv/read.rs:140-152 | the parser reads back every size, and never takes it for the unknown size |
| EbmlRead.ReadElementBack | src/mkv/read.rs:117-125 | the parser splits a written element into its ID, content and what follows |
| EbmlRead.ChildrenBack | src/mkv/read.rs:54-65 | the elements of a body are the written one followed by those of the rest |
| Identifiers.TopLevel | src/mkv/seek_head.rs:7-16 | the identifiers of the elements of a file and its segment are stored as the four octets of RFC 9559 |
| Identifiers.Long | src/mkv/chapters.rs:7-20 | the same for identifiers of two octets |
| Identifiers.Short | src/mkv/cues.rs:82-106 | the same for identifiers of one octet: cues, cluster fields, blocks and chapters |
| Identifiers.ShortLengths | src/mkv/ebml.rs:9-17 | lengths of one and two octets, bit by bit |
| Crc.UpdateConcat | src/mkv/crc32/mod.rs:60-62 | feeding two pieces in turn is feeding their concatenation |
| Crc.LeBytesValue | src/mkv/crc32/mod.rs:32-37 | the octets of a checksum are those of its value, the lowest first |
| Crc.ResidueLaw | src/mkv/crc32/mod.rs:18-62 | whatever was written, feeding it and its stored checksum leaves the register of every CRC-32, 0xDEBB20E3 with the polynomial 0xEDB88320 |
| Crc.CombineLaw | src/mkv/crc32/mod.rs:41-43 | combining the checksums of two pieces gives the checksum of both, for the bit-level definition of CRC-32 |
| Crc.WriteCrcPlaceholder | src/mkv/crc32/mod.rs:22-29 | the empty CRC-32 element is stored |
| Crc.PatchCrc | src/mkv/crc32/mod.rs:32-37 | the four octets of the value are stored where they belong, nothing else changes; their order is that of `Crc.LeBytesValue` |
| Crc.SealCrc | src/mkv/chapters.rs:39-64 | patching the checksum of what was written behind a placeholder leaves a head followed by a valid CRC-32 element for its body |
| Chapters.ChaptersSizeIsLength | src/mkv/chapters.rs:31-36 | the planned size is the length of the written element, for all atoms |
| Chapters.WriteAtom | src/mkv/chapters.rs:88-104 | one chapter atom is stored in exactly its planned octets |
| Chapters.WriteDisplay | src/mkv/chapters.rs:110-121 | one chapter title with its language is stored in exactly its planned octets |
| Chapters.WriteChapters | src/mkv/chapters.rs:39-64 | the whole element is stored in its planned octets with the checksum of everything behind it |
| ChapterRead.Subtag | src/mkv/read.rs:80-89 | the loop finds the first child of the ID asked for whose text is a hyphenated tag |
| ChapterRead.AtomLang | src/mkv/read.rs:67-78 | the loop gives the language of the first display that has one |
| ChapterRead.WalkAtoms | src/mkv/read.rs:54-65 | the loop numbers every atom and lists those with a language |
| ChapterRead.SegmentChild | src/mkv/read.rs:91-115 | the loop finds the segment's child of an ID before the first cluster |
| ChapterRead.ChapterLangs | src/mkv/read.rs:38-52 | the reader's result is the specification of a chapter language list on any octets, malformed ones included |
| ChapterRead.SegmentBodyFound | src/mkv/read.rs:91-115 | a segment child before the clusters is found with its content intact, whatever precedes and follows it |
| ChapterRead.ChaptersComeBack | src/mkv/read.rs:38-89 | reading a file whose segment holds the written chapters gives exactly the numbered languages of the titled atoms with a hyphenated tag |
| ChapterBack.AtomBack | src/mkv/chapters.rs:88-121 | a written chapter reads back with its UID, start, end if behind the start, flags, and title with language if it has one |
| ChapterBack.ChaptersBack | src/mkv/chapters.rs:39-64 | the whole element reads back: its checksum is right, and edition UID, flags and all chapters are those given |
| ChapterBack.FileBack | src/mkv/read.rs:91-115 | so it does out of any file that has it before its clusters |
| Utf8Texts.Utf8Iff | src/mkv/read.rs:80-89 | octets are taken as text if and only if they are the UTF-8 encoding of Unicode scalar values |
| Blocks.BlockGroupLength | src/mkv/block_group.rs:21-38 | the planned size of a block group is its length, keyframe or not |
| Blocks.KeyframeSize | src/mkv/mux.rs:64-91 | a keyframe's size does not depend on its relative time, which planning does not know yet |
| Blocks.PadGroupLength | src/mkv/block_group.rs:97-107 | the planned size of a padded audio block is its length |
| Blocks.SimpleBlockLength | src/mkv/simple_block.rs:8-12 | the planned size of a simple block is its length |
| BlockRead.HeadBack | src/mkv/block_group.rs:69-80 | a block reads back with its track number, relative time, flags and data |
| BlockRead.SealedChecked | src/mkv/crc32/mod.rs:32-37 | a sealed element starts with a checksum of what is behind it, by the residue |
| BlockRead.BlockGroupBack | src/mkv/block_group.rs:42-94 | a block group reads back with its head, frame and duration, a reference to the block as far back as it is late unless it is a keyframe, and a right checksum |
| BlockRead.PadGroupBack | src/mkv/block_group.rs:110-150 | a padded block reads back with its head, data and the time to discard |
| BlockRead.SimpleBack | src/mkv/simple_block.rs:15-28 | a simple block reads back as a keyframe with its head and data |
| BlockRead.FrameBack | src/mkv_mux.rs:1369-1411 | a frame gathered from units splits into exactly those units by their lengths |
| Blocks.BuildBlockGroup | src/mkv/block_group.rs:42-94 | the octets before and after the frame, and the hole for the checksum, land where the frame copy and the patch expect them |
| Blocks.BuildPadGroup | src/mkv/block_group.rs:110-150 | as for a block group, with the trimmed duration |
| Blocks.BuildSimpleBlock | src/mkv/simple_block.rs:15-28 | the octets in front of the data are stored, and with the data make the planned size |
| ClusterSinks.FinishGroup | src/mkv_mux.rs:1321-1356 | the group's own checksum is patched in, and the running checksum covers the patched group |
| ClusterSinks.EmitBlockGroup | src/mkv_mux.rs:1321-1356 | a complete block group with a valid nested checksum lands at the cursor, the cursor advances by its size, and the running checksum now covers it |
| ClusterSinks.EmitNal | src/mkv_mux.rs:1369-1411 | the same for a frame gathered from NAL extents with four-octet lengths |
| ClusterSinks.EmitSimpleBlock | src/mkv_mux.rs:1415-1436 | the same for a simple block |
| ClusterSinks.EmitPadBlock | src/mkv_mux.rs:1447-1483 | the same for an audio packet with a trimmed tail |
| Timestamps.PtsTable | src/mkv/mux.rs:34-50 | the incremental remainder form gives the rounded division at every frame and frame rate |
| Timestamps.PtsNearest | src/mkv/mux.rs:28-31 | a frame has the millisecond nearest to its exact time, the later of two |
| Timestamps.PtsMono | src/mkv/mux.rs:28-31 | frame times never go back |
| Timestamps.TableAscending | src/mkv/mux.rs:34-50 | the table is ascending, as cluster planning needs |
| Timestamps.RelativeExact | src/mkv/mux.rs:54-61 | the sixteen-bit relative time leads back to the frame's time if and only if the distance fits; the duration always leads to the next frame |
| ClusterPlans.PlanCluster | src/mkv/mux.rs:64-91 | a cluster's video total is the sum of its block sizes, starting at the time of its first frame |
| ClusterPlans.PlanClusters | src/mkv/mux.rs:154-169 | each cluster starts at the frame the earlier ones end on |
| ClusterPlans.AssignAudio | src/mkv/mux.rs:94-125 | the bounds are the split of the packets at the cluster starts, and each cluster's total grows by exactly its share of block sizes, padded packets at their own size |
| ClusterPlans.AssignSubs | src/mkv/mux.rs:128-151 | the same for subtitles |
| ClusterPlans.BoundsAscend | src/mkv/mux.rs:94-125 | the clusters' packet ranges ascend within the track |
| ClusterPlans.PlacedByTime | src/mkv/mux.rs:94-151 | a packet of a sorted track lies in the cluster whose time span holds it |
| ClusterPlans.PadAtListed | src/mkv/mux.rs:94-125 | a pad is found at its packet, for any ascending list |
| Layouts.NextMono | src/mkv/mux.rs:182-254 | one pass of the size equations is monotone in the seek head size, the cues size and the position width |
| Layouts.NextBound | src/mkv/mux.rs:182-254 | one pass never leaves the widest sizes |
| Layouts.LeastSolution | src/mkv/mux.rs:182-254 | a solution reached by iteration is below every other solution |
| Layouts.SizePass | src/mkv/mux.rs:206-249 | the first loop fills every size and predecessor size of the array in place |
| Layouts.PositionPass | src/mkv/mux.rs:206-249 | the second loop fills every position, each cluster directly behind the one before |
| Layouts.ComputeCuesContent | src/mkv/cues.rs:35-41 | the accumulated cues length is the sum over the cue points |
| Layouts.ComputeLayout | src/mkv/mux.rs:182-254 | the iteration ends for every input that fits, at the least solution of the circular size equations, with the clusters filled in for it |
| Headers.SeekHeadLength | src/mkv/seek_head.rs:27-34 | the planned SeekHead size is the length of the element |
| Headers.CuePointLength | src/mkv/cues.rs:75-106 | a cue point's planned size is its length, and the one-octet lengths stored in it are right for every value |
| Headers.CuePointsLength | src/mkv/cues.rs:35-46 | the planned cues length is the length of all cue points |
| Headers.FieldsLength | src/mkv/cluster.rs:21-28 | the cluster's fields take their planned octets, at most 30 |
| HeaderWrite.WriteSeekEntry | src/mkv/seek_head.rs:73-82 | a seek entry is stored in its planned octets |
| HeaderWrite.WriteSeekHead | src/mkv/seek_head.rs:37-64 | the SeekHead is stored in its planned octets under a valid checksum, with or without chapters |
| HeaderWrite.WriteCuePoint | src/mkv/cues.rs:82-106 | a cue point is stored in its planned octets |
| HeaderWrite.WriteCues | src/mkv/cues.rs:49-72 | the Cues are stored in their planned octets under a valid checksum |
| HeaderWrite.BuildClusterHeader | src/mkv/cluster.rs:38-66 | whatever the plan, the cluster header fits its 48-octet array, and the offsets returned for the checksum are right |
| HeaderWrite.WriteSegmentHeader | src/mkv/segment.rs:15-18 | the segment's ID and length are stored |
| MatroskaFiles.HeaderLengths | src/mkv/mux.rs:182-254 | at the solution the written SeekHead and Cues have the lengths the layout assumed, and the position width is that of the file size |
| MatroskaFiles.SeekHeadLands | src/mkv/mux.rs:206-249 | every offset in the SeekHead is where that element lies in the segment; chapters are listed if and only if there are any |
| MatroskaFiles.ClusterLands | src/mkv/mux.rs:206-249 | every cluster lies at its Position, and PrevSize is the size of the cluster before it |
| MatroskaFiles.PositionFits | src/mkv/cluster.rs:38-66 | no position is cut by the width pinned for it |
| MatroskaFiles.FileLength | src/mkv_mux.rs:1025-1036 | header octets and cluster sizes add up to the planned file and segment sizes |
| MatroskaFiles.WriteHeaders | src/mkv_mux.rs:990-1022 | all header elements are stored back to back at the start of the file, ending where the clusters begin |
| Indexes.SeekHeadRoundTrip | src/mkv/seek_head.rs:37-82 | parsing the written SeekHead gives the table it was written from |
| Indexes.SeekHeadFinds | src/mkv_mux.rs:990-1022 | in a finished segment every entry of the parsed SeekHead leads to an element with the ID it names |
| Indexes.CuesRoundTrip | src/mkv/cues.rs:49-106 | parsing the written Cues gives one entry per cluster with its time, Position and relative position |
| Indexes.CueSays | src/mkv/cues.rs:82-106 | a cue is of track 1 and of the cluster's first block, and has the frame duration |
| Indexes.CuesFind | src/mkv/cues.rs:20-32 | following a parsed cue leads to the Cluster element and, inside it, to its first block |
| Indexes.ClusterBytesLength | src/mkv/cluster.rs:21-35 | a cluster filled with the planned block octets has its planned size, and its blocks start at the cue's relative position |
| Indexes.FileChapters | src/mkv/read.rs:38-52 | the chapter reader applied to the finished file, headers and clusters, gives the languages of the chapters it was made with |
| Schedules.EarliestLeast | src/mkv_mux.rs:947-958 | the track chosen has the least waiting time, and is the first with it |
| Schedules.FindEarliest | src/mkv_mux.rs:947-958 | the scan computes that choice |
| Schedules.ExactlyOnce | src/mkv_mux.rs:1143-1312 | the interleaving emits each track's packets exactly once each, in order |
| Schedules.InOrder | src/mkv_mux.rs:1143-1312 | from sorted tracks every pair of emitted packets is in order by time, then video, audio, subtitles |
| Schedules.ScheduleWeight | src/mkv_mux.rs:1143-1312 | the octets of the whole schedule are those of all the tracks' shares |
| ClusterBuild.NextPadIs | src/mkv_mux.rs:1440-1443 | the pad cursor stands at a packet if and only if that packet is padded |
| ClusterBuild.EmitVideo | src/mkv_mux.rs:1187-1220 | one frame becomes its block, NAL cursor included |
| ClusterBuild.EmitAudio | src/mkv_mux.rs:1143-1312 | one audio packet becomes a padded group or a simple block, and the pad cursor stays right |
| ClusterBuild.EmitSub | src/mkv_mux.rs:1143-1312 | one subtitle packet becomes a block group with its duration |
| ClusterBuild.ItemLength | src/mkv/mux.rs:64-151 | the block written for any packet has the size planned for it |
| ClusterBuild.Interleave | src/mkv_mux.rs:1143-1312 | the loop ends having written the whole schedule, with the cursor exactly at the region's end |
| ClusterBuild.VideoOnly | src/mkv_mux.rs:1187-1220 | the path without other tracks writes the same schedule |
| ClusterBuild.BuildCluster | src/mkv_mux.rs:1143-1312 | the region of exactly the planned size ends up holding the cluster: header, blocks in schedule order, and a checksum of everything behind it, nested checksums included |
| ClusterRead.FieldsBack | src/mkv/cluster.rs:38-66 | a cluster's time, Position and PrevSize read back |
| ClusterRead.ItemsBack | src/mkv_mux.rs:1143-1312 | the blocks of any schedule read back as its packets, in order |
| ClusterRead.ClusterBack | src/mkv_mux.rs:1143-1312 | a built cluster reads back as its time and place and, in the order scheduled, every packet with its track, relative time, duration, reference, pad and data, all checksums right |
| ClusterRead.TimesBack | src/mkv/mux.rs:54-61 | the time a player gives a packet of any track is its own if and only if that is within sixteen bits of the cluster's |
| ClusterOrder.ShareExactlyOnce | src/mkv_mux.rs:1143-1312 | a cluster holds every frame and every packet between its bounds exactly once |
| ClusterOrder.OneCluster | src/mkv/mux.rs:94-151 | over all clusters each packet is in exactly one share |
| ClusterOrder.WrittenInOrder | src/mkv_mux.rs:1143-1312 | a cluster built from sorted tracks is written in time order with the tie-breaking rule |
| ClusterOrder.CueHitsVideo | src/mkv/cues.rs:20-32 | the block a cue leads to is the cluster's first video frame |
| ClusterOrder.SplitStartsWithVideo | src/mkv/mux.rs:94-151 | clusters split by `assign_audio` and `assign_subs` do start with their first frame |
| Muxer.AssignAudioTracks | src/mkv_mux.rs:630-680 | the clusters' totals grow by the shares of all audio tracks, one after another |
| Muxer.AssignSubTracks | src/mkv_mux.rs:832-900 | the same for all subtitle tracks |
| Muxer.PlanAll | src/mkv_mux.rs:247-374 | after planning, every cluster is ready to be built: its totals are the octets its share will take |
| Muxer.SourceReady | src/mkv_mux.rs:1038-1141 | every planned cluster meets what building it needs |
| Muxer.BuildRegion | src/mkv_mux.rs:1038-1141 | a cluster's region holds the cluster in exactly its planned size |
| Muxer.MuxFile | src/mkv_mux.rs:1025-1036 | end to end: the octets written are the headers followed by all clusters in order, of exactly the planned file size, and the layout is the least solution of the size equations |
| FileRead.DocumentBack | src/mkv/ebml_header.rs:1-11 | the EBML header reads as a Matroska document of version 4 |
| FileRead.FileComesBack | src/mkv_mux.rs:990-1141 | the whole file reads back: SeekHead, Info, Tracks, chapters, Tags, cues, and cluster by cluster every packet of every track |
| FileRead.FrameTimes | src/mkv_mux.rs:1187-1220 | a chunk's frame reads back on track 1 with its time from the cluster's first frame, its duration up to the next frame shown, and a reference unless it is the first |
| FileRead.FrameOctets | src/mkv_mux.rs:1369-1411 | and its data are the units of its extents in the chunk, or its one extent |
| Rbsp.StripEscape | src/nal_parse.rs:65-82 | removing emulation prevention undoes inserting it, for any payload |
| Rbsp.EscapeClean | src/nal_parse.rs:65-82 | an escaped payload contains no start code and completes none |
| Rbsp.Unescape | src/nal_parse.rs:65-82 | the in-place loop stores the stripped payload, or the part that fits, and leaves the rest of the buffer alone |
| Rbsp.UnescapeEscaped | src/nal_parse.rs:65-82 | an escaped payload comes back whole, or as its first octets in a smaller buffer |
| BitReaders.WindowBits | src/nal_parse.rs:99-108 | the 64-bit window starts with the stream's next bits at any alignment |
| BitReaders.BitReader.U | src/nal_parse.rs:110-114 | the next n bits are read as a number and stepped over |
| BitReaders.BitReader.Flag | src/nal_parse.rs:116-120 | the next bit is read and stepped over |
| BitReaders.BitReader.Ue | src/nal_parse.rs:123-128 | the value and length come from the leading zeros of the window |
| BitReaders.UeRoundTrip | src/nal_parse.rs:123-128 | every Exp-Golomb codeword inside the window is read back, and its length stepped over |
| BitReaders.FirstCodewords | src/nal_parse.rs:123-128 | the first codewords are those of Table 9-2 of H.264 |
| BitReaders.ShortCodes | src/nal_parse.rs:123-128 | every codeword of up to 57 bits is inside the window wherever it starts |
| AnnexB.FindStartCode | src/nal_parse.rs:59-61 | the scan finds the least index from the given one of 00 00 01, or that there is none |
| AnnexB.SplitUnits | src/nal_parse.rs:580-613 | the loop's extents are those of the framing specification |
| AnnexB.SplitRoundTrip | src/nal_parse.rs:580-613 | splitting any list of units joined by three- or four-octet start codes recovers exactly their extents |
| AnnexB.EscapedIsUnit | src/nal_parse.rs:65-82 | a header with an escaped payload is such a unit and strips back to that payload |
| Pocs.Poc.Reset | src/nal_parse.rs:147-150 | the state after a restart |
| Pocs.Poc.Full | src/nal_parse.rs:152-168 | the count returned is the closest to the previous one with the given low bits, and the reference moves only when asked |
| Pocs.ClosestUnique | src/nal_parse.rs:152-168 | that count is the only one with these low bits within half a period, the upper end included |
| Pocs.ClosestIsMsb | src/nal_parse.rs:152-168 | the comparison form of section 8.2.1.1 of H.264 computes it |
| Pocs.RunRecovered | src/nal_parse.rs:140-168 | over a whole run the true counts are recovered if and only if every picture keeps to its window |
| Pocs.RestartAgrees | src/nal_parse.rs:331-362 | a recovery point inside a chunk keeps its count if and only if the upper part of it is zero |
| Pocs.RestartLosesUpperBits | src/nal_parse.rs:331-362 | a concrete recovery point that loses its count |
| ChunkRuns.SliceCount | src/nal_parse.rs:185-393 | reading one slice of any of the three codings gives the count the run's specification computes for its picture, and moves the reference as it does |
| NalKinds.Kind264Named | src/nal_parse.rs:237-246 | a unit is classified by the name Table 7-1 of H.264 gives its type, and is a reference if nal_ref_idc is not zero |
| NalKinds.Kind265Named | src/nal_parse.rs:366-391 | a unit is classified by the name Table 7-1 of H.265 gives its type, with its TemporalId |
| NalKinds.Kind266Named | src/nal_parse.rs:482-500 | a unit is classified by the name Table 5 of H.266 gives its type, with its TemporalId |
| NalKinds.Pictures265 | src/nal_parse.rs:331-362 | which named types are IRAP, IDR, restarts and references |
| NalKinds.Pictures266 | src/nal_parse.rs:473-478 | which named types are restarts and references |
| NalKinds.VclIsSlice | src/nal_parse.rs:237-500 | any octets are taken as a slice if and only if they start with the header of a coded slice |
| SliceExamples.Slice264 | src/nal_parse.rs:218-233 | the fields of an H.264 slice header, bit by bit |
| SliceExamples.Trailing265 | src/nal_parse.rs:331-362 | the fields of an H.265 slice header, bit by bit |
| SliceExamples.Cra265 | src/nal_parse.rs:331-362 | those of a random access picture |
| SliceExamples.Picture266 | src/nal_parse.rs:452-480 | the fields of an H.266 picture header in a slice header, bit by bit |
| ChunkRuns.RunChunk | src/nal_parse.rs:580-613 | a chunk's octets are split into units, each is classified and pushed with the count read from it; every slice gets a frame that ends with it, there are as many ranks as units whose headers name a coded slice, and they are the ranks of the counts recovered over the run |
| ChunkRuns.ChunkOrder | src/nal_parse.rs:568-577 | when the pictures keep to their windows, these ranks show the frames in the order of their true counts if and only if negative and other counts are not mixed |
| SliceHeaders.SlicePoc264 | src/nal_parse.rs:218-233 | from any H.264 slice with these header fields, escaped, the count is zero for IDR and else the closest with the coded low bits; only reference slices move the reference |
| SliceHeaders.SlicePoc265 | src/nal_parse.rs:331-362 | from any H.265 slice with these header fields, escaped, the count for IDR, restart and other pictures, and when the reference moves; a further slice of a picture has no count and changes nothing |
| SliceHeaders.SlicePoc266 | src/nal_parse.rs:452-480 | the same from an H.266 slice that carries its picture header; without one, or without a readable sequence parameter set, there is no count and nothing changes |
| NalEmit.Emit.PushNal | src/nal_parse.rs:523-566 | one unit changes the lists as the specification of a step says |
| NalEmit.Emit.PushChunk | src/nal_parse.rs:580-613 | a chunk's units change the lists as the specification of a chunk says: what is added to the stream is, in order, the slices, the prefix units and the sets not held back, and every slice closes a frame that ends with it |
| FrameContents.ChunkShows | src/nal_parse.rs:523-566 | the same of the specification: each frame is exactly the kept units behind the slice before, up to and including its own slice |
| FrameContents.SliceDisplay | src/nal_parse.rs:553-563 | a slice is displayed at its count, or without one at its place in the chunk |
| NalStates.FramesAlways | src/nal_parse.rs:523-566 | after any units every frame's length is the sum of its units with four-octet prefixes and its offset their number |
| Ranks.SortByKey | src/nal_parse.rs:568-577 | the indices sorted by ascending key |
| Ranks.Rank | src/nal_parse.rs:568-577 | the chunk's display numbers are replaced in place by their ranks, earlier chunks untouched |
| Ranks.RanksPermute | src/nal_parse.rs:568-577 | the ranks are a permutation: each table entry is taken by exactly one frame |
| Ranks.RanksPreserve | src/nal_parse.rs:568-577 | a smaller key has a smaller rank |
| Ranks.MixedSwaps | src/nal_parse.rs:568-577 | a concrete chunk with mixed signs whose ranks are out of order |
| Ranks.RankOrder | src/nal_parse.rs:568-577 | the ranks follow the signed counts if and only if the chunk does not mix negative with other counts |
| ParamSets.ChunkTracked | src/nal_parse.rs:523-566 | after any units of a chunk, the record, the chunk's first sets and the kept units account for every set the chunk carried |
| ParamSets.FrontedHolds | src/mkv_mux.rs:552-579 | putting units in front and enlarging the first frame keeps every frame a run of its units |
| Inlining.SliceView | src/mkv_mux.rs:527-579 | at every slice of a chunk the muxed stream shows the same sets of each varying kind, in the same order, as the original chunk; a kind that does not vary is the record throughout |
| SetRuns.RecordIsFirst | src/nal_parse.rs:523-556 | the record of a kind is the first set of the kind, varying or not |
| SetRuns.UsedPreserved | src/mkv_mux.rs:527-579 | over whole runs: at every slice and under every identifier, the record followed by the muxed stream has the octets active that the Annex B stream has without the sets behind the last slices of earlier chunks |
| SetRuns.SetsPreserved | src/mkv_mux.rs:527-579 | wherever the Annex B stream has a set active at a slice, the muxed stream has the same octets active if and only if leaving those sets out does not change it |
| SetRuns.AllPreserved | src/mkv_mux.rs:527-579 | without such sets the muxed stream has the same octets active at every slice |
| SetRuns.UnusedLost | src/mkv_mux.rs:552-579 | a concrete run with a set behind the last slice that is lost |
| SetRuns.PlainKept | src/nal_parse.rs:528-533 | without inlining no set stays in the stream |
| SetRuns.PlainPreserved | src/nal_parse.rs:528-533 | without inlining what is active at a slice is preserved if and only if it is the stream's first set of its kind |
| InlineSets.InlineOne | src/mkv_mux.rs:552-579 | one chunk's varying sets are appended and its first frame counts them |
| InlineSets.InlinePsets | src/mkv_mux.rs:552-579 | the in-place pass rewrites every chunk's units and ranges accordingly and, of the frames, only the first one of each chunk |
| InlineSets.FramesStillHold | src/mkv_mux.rs:552-579 | after the pass every frame of every chunk still has the length and number of its units |
| InlineSets.SlicesStillLast | src/mkv_mux.rs:552-579 | and a frame that ended with its slice still does: the first has the varying sets in front of its own units, every other one just those |
| PinPools.CasOkKeeps | src/vship.rs:396-407 | a successful exchange is right even when the list was taken and rebuilt since its head was loaded (ABA) |
| PinPools.StepKeeps | src/vship.rs:381-407 | every step of one getter and any number of putters keeps both lists well formed and every buffer in one place |
| PinPools.RunInv | src/vship.rs:381-407 | so does every run |
| PinPools.NoneLost | src/vship.rs:381-407 | in every reachable state each buffer is in exactly one of the shared list, the local list, a holder's hands and a pending put |
| PinPools.TakenWasFree | src/vship.rs:381-393 | a buffer handed out was in nobody's hands and pending nowhere |
| PinPools.FreeList | src/vship.rs:440-456 | walking a list frees its buffers in order; a freed buffer cannot be read or freed again, so each link is read before its buffer goes |
| PinPools.Drop | src/vship.rs:440-456 | dropping an idle pool frees exactly the buffers nobody holds, each once, and leaves those held |
| Mutexes.StepKeeps | src/sync.rs:46-86 | every step of any number of threads keeps the lock's invariant |
| Mutexes.MutualExclusion | src/sync.rs:46-52 | at most one thread holds the lock |
| Mutexes.NoLostWake | src/sync.rs:74-131 | while a thread sleeps the word is 2 with a holder, or a wake is owed, or an awake thread is about to swap in 2 |
| Mutexes.NoDeadlock | src/sync.rs:74-131 | while a thread sleeps some thread that does not has an enabled step |
| PkgPools.PkgPool.constructor | src/worker.rs:150-172 | exactly the first n bits are free |
| PkgPools.PkgPool.Take | src/worker.rs:175-193 | undisturbed, the lowest free slot is taken and only its bit changes |
| PkgPools.PkgPool.Give | src/worker.rs:195-198 | only the slot's bit changes |
| PkgPools.StepKeeps | src/worker.rs:150-198 | every step of any number of takers and givers keeps free bits at least permits plus takers inside plus slots whose permit is not yet released |
| PkgPools.SlotToFind | src/dec.rs:205-222 | a thread past the semaphore always has a free slot to find |
| PkgPools.OneOwner | src/worker.rs:175-193 | in every reachable state every slot has at most one owner, and an owned slot's bit is clear |
| PkgPools.HandedOut | src/worker.rs:175-193 | a bit found set is a slot nobody has and goes to the finder alone; one found clear hands out nothing |
| TqSearch.BestIsFirstClosest | src/enc.rs:863-874 | the best probe is the first of those closest to the target |
| TqSearch.TqState.Arm | src/worker.rs:67-80 | a fresh search over the whole grid, the octet buffer kept |
| TqSearch.TqState.SearchCrf | src/enc.rs:1488-1498 | the next quantizer is the guide's pick, rounded and clamped to the interval |
| TqSearch.TqState.Retain | src/enc.rs:944-956 | the octets are swapped in if and only if strictly closer than any before |
| TqSearch.TqState.UpBounds | src/enc.rs:847-860 | the interval loses the side the score rules out |
| TqSearch.TqState.Judge | src/enc.rs:1053-1085 | one scored probe moves the search as specified, and the octets kept still are those of the best probe, ties included |
| TqSearch.NextShrinks | src/enc.rs:847-860 | whatever the guide returns, an unfinished round leaves a strictly smaller interval without the probed quantizer |
| TqSearch.SearchChunk | src/enc.rs:976-1089 | the rounds of encoder and metric worker end, and the octets kept are the encoding at the quantizer `best_probe` selects |
| TqOutcome.ProbesDistinct | src/enc.rs:1488-1498 | for any guide and scores the search ends after distinct grid points, no more than the grid has |
| TqOutcome.FindsConverged | src/enc.rs:1053-1085 | with a falling score, if any quantizer converges the search settles on one that does |
| TqOutcome.RisesStops | src/enc.rs:1057-1063 | with a rising score there is never a third probe |
| TqOutcome.RisesFinds | src/enc.rs:1057-1063 | with a rising score the search settles on a converged quantizer if and only if one of its first two picks converges |
| TqOutcome.RisesCanMiss | src/enc.rs:1057-1063 | a concrete rising score whose converging quantizer is missed |
| TqPlateaus.RoundNearest | src/enc.rs:1488-1498 | rounding gives the nearest integer, of two the one farther from zero |
| TqPlateaus.ContradictsIff | src/enc.rs:1057-1063 | a probe contradicts if and only if an earlier one has the same score or quantizer, or both less or both more |
| TqPlateaus.BoundsKeep | src/enc.rs:847-860 | for a monotone score of either kind the interval keeps every quantizer that converges and loses the one probed |
| TqPlateaus.PlateauMisses | src/enc.rs:1053-1085 | with a score that does not rise and a quantizer that converges, the search settles on one if and only if no score comes twice |
| TqPlateaus.PlateauExample | src/enc.rs:1057-1063 | a concrete plateau that ends the search |
| TqPipeline.StepKeeps | src/enc.rs:1473-1569 | every step of decoder, coordinator, encoders and metric workers keeps the pipeline's invariant |
| TqPipeline.OnePlace | src/enc.rs:1473-1569 | a chunk's package is in exactly one queue or pair of hands from decoding until it is done, and nowhere else |
| TqPipeline.DoneOnce | src/enc.rs:1014-1086 | a chunk completes at most once, and where a final pass is asked for only after an encoder has encoded it again behind its search |
| TqPipeline.PassedOnce | src/enc.rs:1538-1564 | that final encoding is made at most once |
| TqPipeline.ClosedMeansIdle | src/enc.rs:1473-1484 | the encoders' ring closes only when every chunk is done and no package is in flight |
| TqPipeline.NeverBlocks | src/enc.rs:1473-1484 | with at most 128 packages neither the coordinator nor an encoder ever waits for room in a ring |
| TqPipeline.NoDeadlock | src/enc.rs:1645-1679 | until the ring is closed some thread can always step |
| TqRuns.RunBounded | src/enc.rs:1473-1569 | if no chunk is scored more than a given number of times, every run has at most a fixed number of steps |
| TqRuns.ScoredInRounds | src/enc.rs:1053-1085 | judged by its search, no chunk is scored more often than the search has rounds, nor after it is over |
| TqRuns.JudgedBounded | src/enc.rs:1473-1569 | so every run is bounded whatever the guides and scores |
| TqRuns.RunCloses | src/enc.rs:1473-1484 | and every run can be completed, ending with the ring closed and every chunk done |
| Audio.EncodeChunk | src/audio.rs:542-571 | a chunk's octets are those of its kept frames after its pre-roll, from a fresh encoder, flushed by its post-roll; from which frames each packet comes is `AudioHistory.ChunkHistory` |
| Audio.ParEncode | src/audio.rs:574-625 | whatever the order in which threads finish, the chunks are joined by number; any failure fails the whole |
| AudioHistory.WindowHistory | src/audio.rs:542-571 | a window fails if and only if the encoder fails at a frame it is fed, run-in and run-out included; otherwise each kept packet is encoded from all frames fed up to its own |
| AudioHistory.ChunkHistory | src/audio.rs:542-571 | chunk c of a track feeds from 25 frames before frame 500 c to two behind its last |
| AudioHistory.KeptOnce | src/audio.rs:542-548 | every frame is kept by exactly one chunk |
| AudioHistory.BatchHistory | src/audio.rs:468-531 | a track is its head and, frame by frame, the packet encoded from its chunk's run-in on; nothing if and only if some chunk fails |
| AudioHistory.BatchTold | src/audio.rs:542-571 | so for any deterministic encoder, told by its answers to what it was fed |
| OpusStreams.Read | src/opus.rs:254-288 | the reader's loop finds the head and where every packet is |
| OpusStreams.LengthBack | src/audio.rs:562-566 | a packet's length comes back if and only if it is below 65536 |
| OpusStreams.TrackReads | src/opus.rs:254-288 | an encoded track reads back as its head and the packet of every frame |
| AudioTracks.FramedAt | src/audio.rs:549-560 | frame i is the samples i times its length on |
| AudioTracks.PaddedIs | src/audio.rs:476-478 | padding adds the least silence that fills the last frame |
| AudioTracks.CountBySamples | src/audio.rs:476-478 | counted in samples of all channels the frames are as many |
| AudioTracks.TrackWhole | src/audio.rs:405-430 | the track has whole samples of all channels only |
| AudioTracks.RangeTrack | src/audio.rs:405-430 | a range's units give the range's first samples of what they have behind their fronts, no more than its length |
| AudioTracks.RangesJoin | src/audio.rs:405-430 | ranges follow one another, each counted afresh |
| AudioStream.ChunkEncode | src/audio.rs:468-531 | the batch form is the chunks of the padded track |
| AudioStream.WindowSame | src/audio.rs:542-571 | a chunk depends only on the frames of its window, wherever they lie in the buffer |
| AudioStream.SegIsWholes | src/audio.rs:405-455 | the chunks of a buffered segment continue the track's whole chunks exactly |
| AudioStream.RestChunks | src/audio.rs:405-455 | the chunks encoded at the end of input continue them too, the short last one included |
| FusedEncoding.FusedEncode | src/audio.rs:405-455 | for any number of threads, any split into units and any finishing order within each segment, streaming gives the octets of the batch on the whole track, or nothing for no samples |
| FusedEncoding.DifferOnEmpty | src/audio.rs:468-531 | streaming and batch agree if and only if there are samples |
| Scenes.Cuts | src/chunk.rs:314-340 | the cuts are sorted without repetition and include every scene start and range end |
| Scenes.FindRange | src/chunk.rs:314-340 | the range chosen holds the frame, and there is none if and only if the frame is outside all ranges |
| Scenes.TransScenes | src/chunk.rs:314-340 | the output is sorted and disjoint, holds exactly the frames of the ranges, crosses no scene start and carries the parameters in force where it starts |
| Scenes.OneScene | src/chunk.rs:314-340 | a frame is in at most one output scene |
| Scenes.CoveringParams | src/chunk.rs:314-340 | with scenes in order, the lookup at a frame gives the parameters of the scene that has it |
| Scenes.ParamsCover | src/chunk.rs:314-340 | with scenes in order, an output scene has the parameters of every input scene it shares a frame with |

## Left out

- Layouts.ComputeLayout: files that reach the largest EBML size (2^56 - 2 octets) at their widest; the original has no branch for them.
- Muxer.MuxFile: the clusters are built one after another into arrays of their own and then joined; the original splits one mapped file among threads. Each cluster depends only on its own region.
- Muxer.PlanAll: how packets and frames were read from intermediate files; the ranges given must lie in their data.
- ClusterBuild.BuildCluster: the switch that removes subtitle code at compile time is modelled as an empty list of subtitle tracks; non-temporal stores are ordinary stores.
- Timestamps.PtsTable: overflow of 64-bit products.
- Pocs.Poc.Full: the 64-bit width of the count.
- BitReaders.BitReader.Ue: a codeword that does not lie within the window reads as the code does on the cut window; the round trip is stated for those that do.
- SliceHeaders.SlicePoc265: header fields of up to 192 bits, the octets the original unescapes; a longer header is read from a cut buffer.
- SliceHeaders.SlicePoc264: as for H.265.
- SliceHeaders.SlicePoc266: as for H.265.
- SetRuns.UsedPreserved: chunks in which a kind of set first comes after a slice (see the conditions above); how an identifier is read out of a set, which is any function.
- PkgPools.PkgPool.Take: alone on the pool; racing takers and givers are the state machine of the same module.
- TqSearch.SearchChunk: the octets kept without an alternate-parameter final pass; with one, nothing is retained and the final encoding replaces them.
- TqOutcome.FindsConverged: floating-point rounding and NaN; quantizers are integers on the step grid, scores reals, the interpolating guide any function.
- TqRuns.RunCloses: fairness between threads; that some continuation of every run ends, and that none is longer than the bound, needs none.
- TqPipeline.OnePlace: what worker threads do besides passing packages; rings are bounded queues, the semaphore a counter.
- PinPools.StepKeeps: memory orderings; steps are sequentially consistent, except that a putter's first load may return anything.
- Mutexes.NoLostWake: fairness, and a release by any thread but the holder.
- Audio.ParEncode: the Opus encoder is any deterministic state machine, its failure included; sample conversion and loudness normalisation are not modelled.
- AudioStream.ChunkEncode: a buffer that ends within a sample of its channels, which no decoder gives.
- OpusStreams.Read: the pre-skip and channel count taken out of the head, and octets that are no such stream.
- FusedEncoding.FusedEncode: the producer thread that decodes; its units are given, in order.
- ChunkRuns.RunChunk: the units are split off first and pushed then, where the original does both in one loop; slices without a count (H.264 with picture order count type 2, further slices of a picture, H.266 slices without a picture header), whose frames take their place in decoding order; a coding whose parameters change inside a chunk.
- Parsing of sequence and picture parameter sets: the fields the slice readers need are their inputs.
- Tracks, Tags and Info elements: given as contents of known size.
- The start-code scan, the checksum and the rings are assembly in the original: they are specified by their definitions.
- WebM muxing, AV1 preparation, resume files, validators, language tables and progress display.
