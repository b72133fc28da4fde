/** Building one cluster: header, interleaved blocks, and the checksum over all of it. */
module ClusterBuild {
  import opened Bytes
  import opened Ebml
  import opened Crc
  import opened Blocks
  import opened Ranges
  import opened Timestamps
  import opened ClusterPlans
  import opened ClusterSinks
  import opened Headers
  import opened HeaderWrite
  import Schedules
  import Indexes
  import Layouts

  datatype AudioTrack = AudioTrack(data: seq<byte>, packets: seq<ByteRange>, tsMs: seq<u64>, bounds: seq<nat>,
                                   pads: seq<Pad>, number: nat)

  datatype SubTrack = SubTrack(data: seq<byte>, packets: seq<ByteRange>, tsMs: seq<u64>, durMs: seq<u64>,
                               bounds: seq<nat>, number: nat)

  /** Everything cluster `ci` is built from. */
  datatype Source = Source(isNal: bool, blocks: seq<ByteRange>, disp: seq<nat>, nals: seq<ByteRange>, vsrc: seq<byte>,
                           pts: seq<u64>, plan: ClusterPlan, audio: seq<AudioTrack>, subs: seq<SubTrack>, ci: nat)

  // ---- video frames

  /** Frame `i` is a run of NAL extents, or one octet range, within the chunk. */
  ghost predicate FrameIn(isNal: bool, blocks: seq<ByteRange>, nals: seq<ByteRange>, vsrc: seq<byte>, i: nat)
    requires i < |blocks|
  {
    if isNal then
      && FrameHolds(blocks, nals, i)
      && forall r :: r in nals[NalStart(blocks, i)..NalStart(blocks, i) + blocks[i].offset] ==> InRange(r, vsrc)
    else InRange(blocks[i], vsrc)
  }

  ghost predicate FrameOk(s: Source, i: nat)
    requires i < |s.blocks|
  {
    FrameIn(s.isNal, s.blocks, s.nals, s.vsrc, i)
  }

  ghost function FrameData(s: Source, i: nat): (d: seq<byte>)
    requires i < |s.blocks| && FrameOk(s, i)
    ensures |d| == s.blocks[i].len
  {
    if s.isNal then
      var start := NalStart(s.blocks, i);
      NalBytes(s.nals[start..start + s.blocks[i].offset], s.vsrc)
    else Slice(s.blocks[i], s.vsrc)
  }

  ghost predicate VideoOk(s: Source)
  {
    && FramesIn(s.pts, s.isNal, s.disp, s.plan.baseFrame, |s.blocks|)
    && s.plan.ts == s.pts[s.plan.baseFrame]
    && forall i :: 0 <= i < |s.blocks| ==> FrameOk(s, i)
  }

  /** (relative timestamp, duration) of block `i`. */
  function BlockTiming(s: Source, i: nat): (i16, u64)
    requires FramesIn(s.pts, s.isNal, s.disp, s.plan.baseFrame, |s.blocks|) && i < |s.blocks|
  {
    Timing(s.pts, FrameOf(s.isNal, s.disp, s.plan.baseFrame, i), s.plan.ts)
  }

  ghost function VideoBlock(s: Source, i: nat): seq<byte>
    requires VideoOk(s) && i < |s.blocks|
  {
    var (rel, dur) := BlockTiming(s, i);
    BlockGroup(1, rel, FrameData(s, i), i == 0, dur)
  }

  // ---- audio packets and subtitles

  ghost predicate AudioOk(a: AudioTrack, ci: nat)
  {
    && |a.packets| == |a.tsMs| && (forall r :: r in a.packets ==> InRange(r, a.data))
    && AscendingPads(a.pads) && a.number < SIZE_LIMIT
    && ci + 1 < |a.bounds| && a.bounds[ci] <= a.bounds[ci + 1] <= |a.tsMs|
  }

  function AudioBlock(a: AudioTrack, ts: u64, i: nat): seq<byte>
    requires i < |a.packets| == |a.tsMs| && InRange(a.packets[i], a.data)
  {
    var rel, data := WrapI16(a.tsMs[i] - ts), Slice(a.packets[i], a.data);
    match PadAt(a.pads, i)
    case Some(ns) => PadGroup(a.number, rel, data, ns)
    case None => SimpleBlock(a.number, rel, data)
  }

  ghost predicate SubOk(t: SubTrack, ci: nat)
  {
    && |t.packets| == |t.tsMs| == |t.durMs| && (forall r :: r in t.packets ==> InRange(r, t.data))
       && t.number < SIZE_LIMIT
    && ci + 1 < |t.bounds| && t.bounds[ci] <= t.bounds[ci + 1] <= |t.tsMs|
  }

  function SubBlock(t: SubTrack, ts: u64, i: nat): seq<byte>
    requires i < |t.packets| == |t.tsMs| == |t.durMs| && InRange(t.packets[i], t.data)
  {
    BlockGroup(t.number, WrapI16(t.tsMs[i] - ts), Slice(t.packets[i], t.data), true, t.durMs[i])
  }

  // ---- emitting one

  lemma VideoFits(s: Source, i: nat)
    requires VideoOk(s) && i < |s.blocks|
    ensures FramesIn(s.pts, s.isNal, s.disp, s.plan.baseFrame, |s.blocks|) && FrameOk(s, i)
            && (s.isNal ==> i < |s.disp|)
    ensures var f := FrameOf(s.isNal, s.disp, s.plan.baseFrame, i);
            && f + 1 < |s.pts| && s.pts[f] <= s.pts[f + 1] && BlockTiming(s, i) == Timing(s.pts, f, s.plan.ts)
    ensures var (rel, dur) := BlockTiming(s, i);
            && VideoBlock(s, i) == BlockGroup(1, rel, FrameData(s, i), i == 0, dur)
            && BlockGroupSize(1, s.blocks[i].len, i == 0, rel, dur)
               == VideoSizes(s.blocks, s.pts, s.isNal, s.disp, s.plan.baseFrame)[i]
               == |VideoBlock(s, i)|
    ensures 1 < SIZE_LIMIT
  {
    hide BlockGroup, BlockGroupSize, Timing, FrameData, FrameOk;
    var (rel, dur) := BlockTiming(s, i);
    BlockGroupLength(1, rel, FrameData(s, i), i == 0, dur);
  }

  lemma NalFacts(s: Source, i: nat)
    requires i < |s.blocks| && FrameOk(s, i) && s.isNal
    ensures var start := NalStart(s.blocks, i);
            && start + s.blocks[i].offset <= |s.nals| && start + s.blocks[i].offset == NalStart(s.blocks, i + 1)
            && (forall r :: r in s.nals[start..start + s.blocks[i].offset] ==> InRange(r, s.vsrc))
            && s.blocks[i].len == NalOctets(s.nals[start..start + s.blocks[i].offset])
            && FrameData(s, i) == NalBytes(s.nals[start..start + s.blocks[i].offset], s.vsrc)
  {
    hide NalOctets, NalBytes, InRange;
  }

  lemma PlainFacts(s: Source, i: nat)
    requires i < |s.blocks| && FrameOk(s, i) && !s.isNal
    ensures InRange(s.blocks[i], s.vsrc) && FrameData(s, i) == Slice(s.blocks[i], s.vsrc)
    ensures |Slice(s.blocks[i], s.vsrc)| == s.blocks[i].len
  {}

  method EmitVideo(sink: ClusterSink, region: array<byte>, s: Source, vi: nat, nalCur: nat, ghost done: seq<byte>)
    returns (next: nat)
    requires VideoOk(s) && vi < |s.blocks| && (s.isNal ==> nalCur == NalStart(s.blocks, vi))
    requires |VideoBlock(s, vi)| < SIZE_LIMIT && sink.p + |VideoBlock(s, vi)| <= region.Length && sink.Covers(done)
    modifies sink, region
    ensures s.isNal ==> next == NalStart(s.blocks, vi + 1)
    ensures Stored(old(region[..]), region[..], old(sink.p), VideoBlock(s, vi))
    ensures sink.p == old(sink.p) + |VideoBlock(s, vi)| && sink.Covers(done + VideoBlock(s, vi))
  {
    hide *;
    VideoFits(s, vi);
    var f := FrameOf(s.isNal, s.disp, s.plan.baseFrame, vi);
    var (rel, dur) := Timing(s.pts, f, s.plan.ts);
    next := nalCur;
    if s.isNal {
      NalFacts(s, vi);
      var b := s.blocks[vi];
      EmitNal(sink, region, 1, s.nals[nalCur..nalCur + b.offset], s.vsrc, b.len, rel, dur, vi == 0, done);
      next := nalCur + b.offset;
    } else {
      PlainFacts(s, vi);
      EmitBlockGroup(sink, region, 1, Slice(s.blocks[vi], s.vsrc), rel, dur, vi == 0, done);
    }
  }

  /** The packet of the first pad at or after `from`. */
  function NextPad(pads: seq<Pad>, from: nat): Option<nat>
  {
    var k := PadsBefore(pads, from);
    if k < |pads| then Some(pads[k].packet) else None
  }

  lemma NextPadIs(pads: seq<Pad>, from: nat)
    ensures NextPad(pads, from) == Some(from) <==> PadAt(pads, from).Some?
    ensures NextPad(pads, from) == Some(from) ==>
            PadsBefore(pads, from) < |pads| && PadAt(pads, from) == Some(pads[PadsBefore(pads, from)].ns)
    ensures NextPad(pads, from) != Some(from) ==> NextPad(pads, from + 1) == NextPad(pads, from)
  {
    hide PadsBefore;
    var k := PadsBefore(pads, from);
    PadsBeforeIs(pads, from, k);
    if NextPad(pads, from) != Some(from) { PadsBeforeIs(pads, from + 1, k); }
  }

  lemma AudioFits(a: AudioTrack, ts: u64, i: nat)
    requires i < |a.packets| == |a.tsMs| && InRange(a.packets[i], a.data)
    ensures var rel, data := WrapI16(a.tsMs[i] - ts), Slice(a.packets[i], a.data);
            && |data| == a.packets[i].len
            && AudioSize(a.number, |data|, PadAt(a.pads, i)) == |AudioBlock(a, ts, i)|
            && match PadAt(a.pads, i)
               case Some(ns) =>
                 AudioBlock(a, ts, i) == PadGroup(a.number, rel, data, ns)
                 && PadGroupSize(a.number, |data|, ns) == |AudioBlock(a, ts, i)|
               case None =>
                 AudioBlock(a, ts, i) == SimpleBlock(a.number, rel, data)
                 && SimpleBlockSize(a.number, |data|) == |AudioBlock(a, ts, i)|
  {
    hide PadGroup, SimpleBlock, PadAt, PadGroupSize, SimpleBlockSize;
    var rel, data := WrapI16(a.tsMs[i] - ts), Slice(a.packets[i], a.data);
    SimpleBlockLength(a.number, rel, data);
    if PadAt(a.pads, i).Some? { PadGroupLength(a.number, rel, data, PadAt(a.pads, i).value); }
  }

  /** Packet `cur` of an audio track; `pk` is the packet of its next pad. */
  method EmitAudio(sink: ClusterSink, region: array<byte>, a: AudioTrack, ts: u64, cur: nat, pk: Option<nat>,
                   ghost done: seq<byte>)
    returns (next: Option<nat>)
    requires cur < |a.packets| == |a.tsMs| && InRange(a.packets[cur], a.data) && a.number < SIZE_LIMIT
             && pk == NextPad(a.pads, cur)
    requires |AudioBlock(a, ts, cur)| < SIZE_LIMIT && sink.p + |AudioBlock(a, ts, cur)| <= region.Length
             && sink.Covers(done)
    modifies sink, region
    ensures next == NextPad(a.pads, cur + 1)
    ensures Stored(old(region[..]), region[..], old(sink.p), AudioBlock(a, ts, cur))
    ensures sink.p == old(sink.p) + |AudioBlock(a, ts, cur)| && sink.Covers(done + AudioBlock(a, ts, cur))
  {
    hide *;
    AudioFits(a, ts, cur);
    NextPadIs(a.pads, cur);
    var rel := WrapI16(a.tsMs[cur] - ts);
    next := pk;
    if pk == Some(cur) {
      var at := PadsBefore(a.pads, cur);
      next := NextPad(a.pads, cur + 1);
      EmitPadBlock(sink, region, a.number, Slice(a.packets[cur], a.data), rel, a.pads[at].ns, done);
    } else {
      EmitSimpleBlock(sink, region, a.number, Slice(a.packets[cur], a.data), rel, done);
    }
  }

  lemma SubFits(t: SubTrack, ts: u64, i: nat)
    requires i < |t.packets| == |t.tsMs| == |t.durMs| && InRange(t.packets[i], t.data)
    ensures var rel, data := WrapI16(t.tsMs[i] - ts), Slice(t.packets[i], t.data);
            && |data| == t.packets[i].len && SubBlock(t, ts, i) == BlockGroup(t.number, rel, data, true, t.durMs[i])
            && BlockGroupSize(t.number, |data|, true, rel, t.durMs[i]) == |SubBlock(t, ts, i)|
            && BlockGroupSize(t.number, |data|, true, 0, t.durMs[i]) == |SubBlock(t, ts, i)|
  {
    hide BlockGroup, BlockGroupSize;
    var rel, data := WrapI16(t.tsMs[i] - ts), Slice(t.packets[i], t.data);
    BlockGroupLength(t.number, rel, data, true, t.durMs[i]);
    KeyframeSize(t.number, |data|, rel, t.durMs[i]);
  }

  method EmitSub(sink: ClusterSink, region: array<byte>, t: SubTrack, ts: u64, cur: nat, ghost done: seq<byte>)
    requires cur < |t.packets| == |t.tsMs| == |t.durMs| && InRange(t.packets[cur], t.data) && t.number < SIZE_LIMIT
    requires |SubBlock(t, ts, cur)| < SIZE_LIMIT && sink.p + |SubBlock(t, ts, cur)| <= region.Length
             && sink.Covers(done)
    modifies sink, region
    ensures Stored(old(region[..]), region[..], old(sink.p), SubBlock(t, ts, cur))
    ensures sink.p == old(sink.p) + |SubBlock(t, ts, cur)| && sink.Covers(done + SubBlock(t, ts, cur))
  {
    hide *;
    SubFits(t, ts, cur);
    EmitBlockGroup(sink, region, t.number, Slice(t.packets[cur], t.data), WrapI16(t.tsMs[cur] - ts), t.durMs[cur],
                   true, done);
  }

  // ---- the cluster as inputs of a schedule

  function AudioLane(a: AudioTrack, ci: nat): Schedules.Lane
    requires ci + 1 < |a.bounds|
  {
    Schedules.Lane(a.tsMs, a.bounds[ci], a.bounds[ci + 1])
  }

  function SubLane(t: SubTrack, ci: nat): Schedules.Lane
    requires ci + 1 < |t.bounds|
  {
    Schedules.Lane(t.tsMs, t.bounds[ci], t.bounds[ci + 1])
  }

  ghost predicate SourceOk(s: Source)
  {
    && VideoOk(s)
    && (forall t :: 0 <= t < |s.audio| ==> AudioOk(s.audio[t], s.ci))
    && (forall t :: 0 <= t < |s.subs| ==> SubOk(s.subs[t], s.ci))
  }

  function InputsOf(s: Source): (x: Schedules.Inputs)
    requires SourceOk(s)
    ensures |x.video| == |s.blocks| && |x.audio| == |s.audio| && |x.subs| == |s.subs|
  {
    Schedules.Inputs(s.pts[s.plan.baseFrame..s.plan.baseFrame + |s.blocks|],
                     seq(|s.audio|, t requires 0 <= t < |s.audio| => AudioLane(s.audio[t], s.ci)),
                     seq(|s.subs|, t requires 0 <= t < |s.subs| => SubLane(s.subs[t], s.ci)))
  }

  function Lens(packets: seq<ByteRange>): (s: seq<nat>)
    ensures |s| == |packets|
  {
    seq(|packets|, i requires 0 <= i < |packets| => packets[i].len)
  }

  function AudioWeights(a: AudioTrack): (w: seq<nat>)
    ensures |w| == |a.packets|
  {
    AudioSizes(a.number, Lens(a.packets), a.pads)
  }

  function SubWeights(t: SubTrack): (w: seq<nat>)
    requires |t.durMs| == |t.packets|
    ensures |w| == |t.packets|
  {
    SubSizes(t.number, Lens(t.packets), t.durMs)
  }

  /** The planned size of every packet. */
  ghost function WeightsOf(s: Source): (w: Schedules.Weights)
    requires SourceOk(s)
    ensures |w.video| == |s.blocks| && |w.audio| == |s.audio| && |w.subs| == |s.subs|
  {
    Schedules.Weights(VideoSizes(s.blocks, s.pts, s.isNal, s.disp, s.plan.baseFrame),
                      seq(|s.audio|, t requires 0 <= t < |s.audio| => AudioWeights(s.audio[t])),
                      seq(|s.subs|, t requires 0 <= t < |s.subs| => SubWeights(s.subs[t])))
  }

  /** The octets of a scheduled packet. */
  ghost function ItemBlock(s: Source, item: Schedules.Item): seq<byte>
    requires SourceOk(s) && Schedules.Within(InputsOf(s), item)
  {
    match item
    case Video(i) => VideoBlock(s, i)
    case Audio(t, i) => AudioBlock(s.audio[t], s.plan.ts, i)
    case Sub(t, i) => SubBlock(s.subs[t], s.plan.ts, i)
  }

  ghost predicate AllWithin(s: Source, items: seq<Schedules.Item>)
    requires SourceOk(s)
  {
    forall k :: 0 <= k < |items| ==> Schedules.Within(InputsOf(s), items[k])
  }

  ghost function ItemsBytes(s: Source, items: seq<Schedules.Item>): seq<byte>
    requires SourceOk(s) && AllWithin(s, items)
  {
    if |items| == 0 then [] else ItemsBytes(s, items[..|items| - 1]) + ItemBlock(s, items[|items| - 1])
  }

  lemma ItemsSnoc(s: Source, items: seq<Schedules.Item>, item: Schedules.Item)
    requires SourceOk(s) && AllWithin(s, items) && Schedules.Within(InputsOf(s), item)
    ensures AllWithin(s, items + [item]) && ItemsBytes(s, items + [item]) == ItemsBytes(s, items) + ItemBlock(s, item)
  {
    hide SourceOk, ItemBlock, Schedules.Within, InputsOf;
    assert (items + [item])[..|items|] == items;
  }

  /** Every packet takes the octets planned for it. */
  lemma ItemLength(s: Source, item: Schedules.Item)
    requires SourceOk(s) && Schedules.Within(InputsOf(s), item)
    ensures |ItemBlock(s, item)| == Schedules.WeightOf(WeightsOf(s), item)
  {
    hide VideoOk, VideoBlock, AudioBlock, SubBlock, AudioSize, BlockGroupSize, VideoSizes;
    match item
    case Video(i) => VideoFits(s, i);
    case Audio(t, i) => AudioLength(s.audio[t], s.plan.ts, i);
    case Sub(t, i) => SubLength(s.subs[t], s.plan.ts, i);
  }

  lemma AudioLength(a: AudioTrack, ts: u64, i: nat)
    requires i < |a.packets| == |a.tsMs| && (forall r :: r in a.packets ==> InRange(r, a.data))
    ensures InRange(a.packets[i], a.data) && |AudioBlock(a, ts, i)| == AudioWeights(a)[i]
  {
    hide AudioBlock, AudioSize, PadAt, InRange;
    AudioFits(a, ts, i);
  }

  lemma SubLength(t: SubTrack, ts: u64, i: nat)
    requires i < |t.packets| == |t.tsMs| == |t.durMs| && (forall r :: r in t.packets ==> InRange(r, t.data))
    ensures InRange(t.packets[i], t.data) && |SubBlock(t, ts, i)| == SubWeights(t)[i]
  {
    hide SubBlock, BlockGroupSize, InRange;
    SubFits(t, ts, i);
  }

  lemma SourceSchedulable(s: Source)
    requires SourceOk(s)
    ensures Schedules.Valid(InputsOf(s)) && Schedules.Weighed(InputsOf(s), WeightsOf(s))
    ensures Schedules.Countable(InputsOf(s), WeightsOf(s), Schedules.Begin(InputsOf(s)))
  {
    hide VideoOk, AudioSizes, SubSizes, VideoSizes, AscendingPads;
  }

  // ---- the interleaving loop

  /** `items` are out and the schedule continues from `st`; what remains fills the region up to `cap`. */
  ghost predicate Going(s: Source, st: Schedules.Cursors, items: seq<Schedules.Item>, p: nat, cap: nat)
  {
    && SourceOk(s) && AllWithin(s, items) && cap < SIZE_LIMIT
    && var x := InputsOf(s);
       && Schedules.Countable(x, WeightsOf(s), st)
       && items + Schedules.Schedule(x, st) == Schedules.Schedule(x, Schedules.Begin(x))
       && p + Schedules.Remaining(x, WeightsOf(s), st) == cap
  }

  /** The region holds `front`, the fields and the blocks of `items`; the checksum is that of fields and blocks. */
  ghost predicate Written(s: Source, s0: seq<byte>, now: seq<byte>, p: nat, crc: Reg, front: seq<byte>,
                          fields: seq<byte>,
                          items: seq<Schedules.Item>)
  {
    && SourceOk(s) && AllWithin(s, items)
    && var done := fields + ItemsBytes(s, items);
       Stored(s0, now, 0, front + done) && p == |front| + |done| && crc == Crc32(done)
  }

  /** Less is left in `next` than in `st`. */
  ghost predicate Shrinks(s: Source, st: Schedules.Cursors, next: Schedules.Cursors)
  {
    && SourceOk(s) && |st.audio| == |next.audio| == |s.audio| && |st.subs| == |next.subs| == |s.subs|
    && Schedules.Left(InputsOf(s), next) < Schedules.Left(InputsOf(s), st)
  }

  /** What emitting the step's item needs, and where the loop is after it. */
  lemma GoOn(s: Source, st: Schedules.Cursors, items: seq<Schedules.Item>, p: nat, cap: nat)
    requires Going(s, st, items, p, cap) && Schedules.Step(InputsOf(s), st).Some?
    ensures var item := Schedules.Step(InputsOf(s), st).value;
            && Schedules.Due(InputsOf(s), st, item) && Schedules.Within(InputsOf(s), item)
            && |ItemBlock(s, item)| < SIZE_LIMIT && p + |ItemBlock(s, item)| <= cap
            && Going(s, Schedules.After(st, item), items + [item], p + |ItemBlock(s, item)|, cap)
            && Shrinks(s, st, Schedules.After(st, item))
  {
    hide Schedules.Left, SourceOk, Schedules.Step, Schedules.After, Schedules.Due, Schedules.Within, InputsOf,
        WeightsOf, ItemBlock, Schedules.Schedule, Schedules.Remaining;
    hide Schedules.Ok, Schedules.Weighed;
    var x, w := InputsOf(s), WeightsOf(s);
    Schedules.ScheduleIs(x, st);
    var item := Schedules.Step(x, st).value;
    Schedules.PendingWithin(x, st, item);
    ItemLength(s, item);
    Schedules.RemainingDrop(x, w, st, item);
    ItemsSnoc(s, items, item);
    var rest := Schedules.Schedule(x, Schedules.After(st, item));
    assert items + ([item] + rest) == (items + [item]) + rest;
  }

  lemma WriteOn(s: Source, s0: seq<byte>, s1: seq<byte>, s2: seq<byte>, p: nat, crc: Reg, crc2: Reg, front: seq<byte>,
                fields: seq<byte>,
                items: seq<Schedules.Item>, item: Schedules.Item)
    requires Written(s, s0, s1, p, crc, front, fields, items) && Schedules.Within(InputsOf(s), item)
    requires Stored(s1, s2, p, ItemBlock(s, item)) && crc2 == Crc32(fields + ItemsBytes(s, items) + ItemBlock(s, item))
    ensures Written(s, s0, s2, p + |ItemBlock(s, item)|, crc2, front, fields, items + [item])
  {
    hide SourceOk, Schedules.Within, InputsOf, ItemBlock, Stored, Crc32, ItemsBytes;
    var done, block := fields + ItemsBytes(s, items), ItemBlock(s, item);
    ItemsSnoc(s, items, item);
    assert done + block == fields + (ItemsBytes(s, items) + block);
    StoredThen(s0, s1, s2, 0, front + done, block);
    assert (front + done) + block == front + (done + block);
  }

  /** Where video is next. */
  lemma VideoNext(s: Source, st: Schedules.Cursors, items: seq<Schedules.Item>, p: nat, cap: nat, aTs: u64, sTs: u64)
    requires Going(s, st, items, p, cap)
    requires aTs == Schedules.Earliest(InputsOf(s).audio, st.audio).1
             && sTs == Schedules.Earliest(InputsOf(s).subs, st.subs).1
    requires st.vi < |s.blocks| && s.pts[s.plan.baseFrame + st.vi] <= aTs && s.pts[s.plan.baseFrame + st.vi] <= sTs
    ensures var item := Schedules.Video(st.vi);
            && VideoOk(s) && Schedules.Within(InputsOf(s), item) && ItemBlock(s, item) == VideoBlock(s, st.vi)
            && |VideoBlock(s, st.vi)| < SIZE_LIMIT && p + |VideoBlock(s, st.vi)| <= cap
            && Going(s, st.(vi := st.vi + 1), items + [item], p + |VideoBlock(s, st.vi)|, cap)
            && Shrinks(s, st, st.(vi := st.vi + 1))
  {
    hide Shrinks;
    hide Schedules.Earliest, VideoOk, Going, VideoBlock, AudioOk, SubOk;
    GoingFacts(s, st, items, p, cap);
    GoOn(s, st, items, p, cap);
  }

  lemma GoingFacts(s: Source, st: Schedules.Cursors, items: seq<Schedules.Item>, p: nat, cap: nat)
    requires Going(s, st, items, p, cap)
    ensures SourceOk(s) && |st.audio| == |s.audio| && |st.subs| == |s.subs| && st.vi <= |s.blocks|
    ensures s.plan.baseFrame + |s.blocks| <= |s.pts|
    ensures Schedules.Ok(InputsOf(s), st)
    ensures forall t :: 0 <= t < |s.audio| ==> s.ci + 1 < |s.audio[t].bounds|
    ensures forall t :: 0 <= t < |s.subs| ==> s.ci + 1 < |s.subs[t].bounds|
  {
    hide Schedules.Remaining, Schedules.Schedule, WeightsOf, AllWithin, VideoBlock, ItemBlock;
  }

  /** Where audio is next. */
  lemma AudioNext(s: Source, st: Schedules.Cursors, items: seq<Schedules.Item>, p: nat, cap: nat, best: Option<nat>,
                  aTs: u64, sTs: u64)
    requires Going(s, st, items, p, cap) && best.Some?
    requires (best, aTs) == Schedules.Earliest(InputsOf(s).audio, st.audio)
             && sTs == Schedules.Earliest(InputsOf(s).subs, st.subs).1
    requires !(st.vi < |s.blocks| && s.pts[s.plan.baseFrame + st.vi] <= aTs && s.pts[s.plan.baseFrame + st.vi] <= sTs)
             && aTs <= sTs
    ensures best.value < |s.audio| == |st.audio|
    ensures var t := best.value;
            var cur := st.audio[t];
            var item := Schedules.Audio(t, cur);
            var a := s.audio[t];
            && cur < |a.packets| == |a.tsMs| && InRange(a.packets[cur], a.data) && a.number < SIZE_LIMIT
               && aTs == a.tsMs[cur]
            && SourceOk(s) && Schedules.Within(InputsOf(s), item) && ItemBlock(s, item) == AudioBlock(a, s.plan.ts, cur)
            && |AudioBlock(a, s.plan.ts, cur)| < SIZE_LIMIT && p + |AudioBlock(a, s.plan.ts, cur)| <= cap
            && Going(s, st.(audio := st.audio[t := cur + 1]), items + [item], p + |AudioBlock(a, s.plan.ts, cur)|, cap)
            && Shrinks(s, st, st.(audio := st.audio[t := cur + 1]))
  {
    hide Shrinks;
    hide Schedules.Earliest, VideoOk, Going, VideoBlock, AudioBlock, SubOk, InRange, AscendingPads, Schedules.Head;
    GoingFacts(s, st, items, p, cap);
    Schedules.EarliestLeast(InputsOf(s).audio, st.audio);
    GoOn(s, st, items, p, cap);
    var t := best.value;
    HeadIs(s.audio[t].tsMs, s.audio[t].bounds[s.ci], s.audio[t].bounds[s.ci + 1], st.audio[t]);
    assert s.audio[t].packets[st.audio[t]] in s.audio[t].packets;
  }

  lemma HeadIs(ts: seq<u64>, lo: nat, hi: nat, cursor: nat)
    requires hi <= |ts| && Schedules.Head(Schedules.Lane(ts, lo, hi), cursor) < Schedules.NEVER
    ensures cursor < hi && Schedules.Head(Schedules.Lane(ts, lo, hi), cursor) == ts[cursor]
  {}

  /** Where a subtitle is next. */
  lemma SubNext(s: Source, st: Schedules.Cursors, items: seq<Schedules.Item>, p: nat, cap: nat, bestA: Option<nat>,
                aTs: u64, best: Option<nat>, sTs: u64)
    requires Going(s, st, items, p, cap) && best.Some?
    requires (bestA, aTs) == Schedules.Earliest(InputsOf(s).audio, st.audio)
             && (best, sTs) == Schedules.Earliest(InputsOf(s).subs, st.subs)
    requires !(st.vi < |s.blocks| && s.pts[s.plan.baseFrame + st.vi] <= aTs && s.pts[s.plan.baseFrame + st.vi] <= sTs)
    requires !(bestA.Some? && aTs <= sTs)
    ensures best.value < |s.subs| == |st.subs|
    ensures var t := best.value;
            var cur := st.subs[t];
            var item := Schedules.Sub(t, cur);
            var u := s.subs[t];
            && cur < |u.packets| == |u.tsMs| == |u.durMs| && InRange(u.packets[cur], u.data) && u.number < SIZE_LIMIT
               && sTs == u.tsMs[cur]
            && SourceOk(s) && Schedules.Within(InputsOf(s), item) && ItemBlock(s, item) == SubBlock(u, s.plan.ts, cur)
            && |SubBlock(u, s.plan.ts, cur)| < SIZE_LIMIT && p + |SubBlock(u, s.plan.ts, cur)| <= cap
            && Going(s, st.(subs := st.subs[t := cur + 1]), items + [item], p + |SubBlock(u, s.plan.ts, cur)|, cap)
            && Shrinks(s, st, st.(subs := st.subs[t := cur + 1]))
  {
    hide Shrinks;
    hide Schedules.Earliest, VideoOk, Going, VideoBlock, SubBlock, AudioOk, InRange, Schedules.Head;
    GoingFacts(s, st, items, p, cap);
    Schedules.EarliestLeast(InputsOf(s).subs, st.subs);
    GoOn(s, st, items, p, cap);
    var t := best.value;
    HeadIs(s.subs[t].tsMs, s.subs[t].bounds[s.ci], s.subs[t].bounds[s.ci + 1], st.subs[t]);
    assert s.subs[t].packets[st.subs[t]] in s.subs[t].packets;
  }

  /** Nothing is next: everything is out, and the region is full. */
  lemma NoneNext(s: Source, st: Schedules.Cursors, items: seq<Schedules.Item>, p: nat, cap: nat, bestA: Option<nat>,
                 aTs: u64, bestS: Option<nat>, sTs: u64)
    requires Going(s, st, items, p, cap) && Schedules.Timed(InputsOf(s))
    requires (bestA, aTs) == Schedules.Earliest(InputsOf(s).audio, st.audio)
             && (bestS, sTs) == Schedules.Earliest(InputsOf(s).subs, st.subs)
    requires !(st.vi < |s.blocks| && s.pts[s.plan.baseFrame + st.vi] <= aTs && s.pts[s.plan.baseFrame + st.vi] <= sTs)
    requires !(bestA.Some? && aTs <= sTs) && bestS.None?
    ensures items == Schedules.Schedule(InputsOf(s), Schedules.Begin(InputsOf(s))) && p == cap
  {
    hide Schedules.Earliest, VideoOk, VideoBlock, AudioOk, SubOk, Schedules.Remaining, Schedules.Timed,
        Schedules.Schedule, AllWithin, WeightsOf;
    var x := InputsOf(s);
    GoingFacts(s, st, items, p, cap);
    assert Schedules.Step(x, st).None?;
    Schedules.ScheduleIs(x, st);
    Schedules.RemainingDone(x, WeightsOf(s), st);
    assert items + [] == items;
  }

  lemma CoversIs(sink: ClusterSink, done: seq<byte>)
    ensures sink.Covers(done) <==> sink.crc == Crc32(done)
  {}

  /** What is out so far, fields included. */
  ghost function DoneBytes(s: Source, fields: seq<byte>, items: seq<Schedules.Item>): seq<byte>
    requires SourceOk(s) && AllWithin(s, items)
  {
    fields + ItemsBytes(s, items)
  }

  lemma WrittenFacts(s: Source, s0: seq<byte>, now: seq<byte>, p: nat, crc: Reg, front: seq<byte>, fields: seq<byte>,
                     items: seq<Schedules.Item>)
    requires Written(s, s0, now, p, crc, front, fields, items)
    ensures SourceOk(s) && AllWithin(s, items) && crc == Crc32(DoneBytes(s, fields, items))
  {
    hide SourceOk, AllWithin, ItemsBytes, Crc32, Stored;
  }

  /** Every track's pad cursor is at its next pad. */
  ghost predicate PadsAt(s: Source, cursors: seq<nat>, pads: seq<Option<nat>>)
  {
    |cursors| == |pads| == |s.audio| && forall t :: 0 <= t < |pads| ==> pads[t] == NextPad(s.audio[t].pads, cursors[t])
  }

  lemma PadsOn(s: Source, cursors: seq<nat>, pads: seq<Option<nat>>, t: nat, next: Option<nat>)
    requires PadsAt(s, cursors, pads) && t < |s.audio| && next == NextPad(s.audio[t].pads, cursors[t] + 1)
    ensures |pads| == |s.audio| && PadsAt(s, cursors[t := cursors[t] + 1], pads[t := next])
            && pads[t] == NextPad(s.audio[t].pads, cursors[t])
  {
    hide NextPad;
  }

  /** Emits the cluster's packets earliest first until none is left; the cursor ends at the region's end. */
  method Interleave(sink: ClusterSink, region: array<byte>, s: Source, ghost s0: seq<byte>, ghost front: seq<byte>,
                    ghost fields: seq<byte>)
    returns (ghost items: seq<Schedules.Item>)
    requires SourceOk(s) && Schedules.Timed(InputsOf(s))
    requires Going(s, Schedules.Begin(InputsOf(s)), [], sink.p, region.Length)
    requires Written(s, s0, region[..], sink.p, sink.crc, front, fields, [])
    modifies sink, region
    ensures items == Schedules.Schedule(InputsOf(s), Schedules.Begin(InputsOf(s)))
    ensures Written(s, s0, region[..], sink.p, sink.crc, front, fields, items) && sink.p == region.Length
  {
    hide *;
    var x := InputsOf(s);
    var begin := Schedules.Begin(x);
    var cursors, sCursors := begin.audio, begin.subs;
    BeginFacts(s);
    var pCursors := seq(|s.audio|, t requires 0 <= t < |s.audio|
                        && t < |cursors| => NextPad(s.audio[t].pads, cursors[t]));
    PadsBegin(s, cursors, pCursors);
    var vi, nalCur := 0, 0;
    items := [];
    while true
      invariant Going(s, Schedules.Cursors(vi, cursors, sCursors), items, sink.p, region.Length)
      invariant Written(s, s0, region[..], sink.p, sink.crc, front, fields, items)
      invariant PadsAt(s, cursors, pCursors)
      invariant s.isNal ==> vi <= |s.blocks| && nalCur == NalStart(s.blocks, vi)
      invariant |cursors| == |x.audio| && |sCursors| == |x.subs|
      decreases Schedules.Left(x, Schedules.Cursors(vi, cursors, sCursors))
    {
      ghost var st := Schedules.Cursors(vi, cursors, sCursors);
      ghost var s1, p, crc := region[..], sink.p, sink.crc;
      GoingFacts(s, st, items, p, region.Length);
      WrittenFacts(s, s0, s1, p, crc, front, fields, items);
      ghost var done := DoneBytes(s, fields, items);
      CoversIs(sink, done);
      var bestA, aTs := Schedules.FindEarliest(x.audio, cursors);
      var bestS, sTs := Schedules.FindEarliest(x.subs, sCursors);
      ghost var item: Schedules.Item;
      if vi < |s.blocks| && s.pts[s.plan.baseFrame + vi] <= aTs && s.pts[s.plan.baseFrame + vi] <= sTs {
        item := Schedules.Video(vi);
        VideoNext(s, st, items, p, region.Length, aTs, sTs);
        nalCur := EmitVideo(sink, region, s, vi, nalCur, done);
        ShrinksFacts(s, st, st.(vi := vi + 1));
        vi := vi + 1;
      } else if bestA.Some? && aTs <= sTs {
        var t := bestA.value;
        AudioNext(s, st, items, p, region.Length, bestA, aTs, sTs);
        var cur := cursors[t];
        item := Schedules.Audio(t, cur);
        PadsOn(s, cursors, pCursors, t, NextPad(s.audio[t].pads, cur + 1));
        var pk := EmitAudio(sink, region, s.audio[t], s.plan.ts, cur, pCursors[t], done);
        ShrinksFacts(s, st, st.(audio := st.audio[t := cur + 1]));
        pCursors := pCursors[t := pk];
        cursors := cursors[t := cur + 1];
      } else if bestS.Some? {
        var t := bestS.value;
        SubNext(s, st, items, p, region.Length, bestA, aTs, bestS, sTs);
        var cur := sCursors[t];
        item := Schedules.Sub(t, cur);
        EmitSub(sink, region, s.subs[t], s.plan.ts, cur, done);
        ShrinksFacts(s, st, st.(subs := st.subs[t := cur + 1]));
        sCursors := sCursors[t := cur + 1];
      } else {
        NoneNext(s, st, items, p, region.Length, bestA, aTs, bestS, sTs);
        return;
      }
      CoversIs(sink, done + ItemBlock(s, item));
      WriteDone(s, s0, s1, region[..], p, crc, sink.crc, front, fields, items, item);
      items := items + [item];
    }
  }

  lemma WriteDone(s: Source, s0: seq<byte>, s1: seq<byte>, s2: seq<byte>, p: nat, crc: Reg, crc2: Reg,
                  front: seq<byte>, fields: seq<byte>,
                  items: seq<Schedules.Item>, item: Schedules.Item)
    requires Written(s, s0, s1, p, crc, front, fields, items) && Schedules.Within(InputsOf(s), item)
    requires Stored(s1, s2, p, ItemBlock(s, item)) && crc2 == Crc32(DoneBytes(s, fields, items) + ItemBlock(s, item))
    ensures Written(s, s0, s2, p + |ItemBlock(s, item)|, crc2, front, fields, items + [item])
  {
    hide Written, Schedules.Within, InputsOf, ItemBlock, Stored, Crc32, ItemsBytes;
    WriteOn(s, s0, s1, s2, p, crc, crc2, front, fields, items, item);
  }

  lemma ShrinksFacts(s: Source, st: Schedules.Cursors, next: Schedules.Cursors)
    requires Shrinks(s, st, next)
    ensures |next.audio| == |InputsOf(s).audio| == |st.audio| && |next.subs| == |InputsOf(s).subs| == |st.subs|
    ensures Schedules.Left(InputsOf(s), next) < Schedules.Left(InputsOf(s), st)
  {
    hide SourceOk, Schedules.Left;
  }

  lemma BeginFacts(s: Source)
    requires SourceOk(s)
    ensures var begin := Schedules.Begin(InputsOf(s));
            begin == Schedules.Cursors(0, begin.audio, begin.subs) && |begin.audio| == |s.audio| == |InputsOf(s).audio|
                && |begin.subs| == |s.subs| == |InputsOf(s).subs|
    ensures NalStart(s.blocks, 0) == 0
  {}

  lemma PadsBegin(s: Source, cursors: seq<nat>, pads: seq<Option<nat>>)
    requires |cursors| == |pads| == |s.audio|
    requires forall t :: 0 <= t < |pads| ==> pads[t] == NextPad(s.audio[t].pads, cursors[t])
    ensures PadsAt(s, cursors, pads)
  {}

  lemma NoLanes(x: Schedules.Inputs)
    requires |x.audio| == 0 && |x.subs| == 0
    ensures Schedules.Earliest(x.audio, []) == (None, Schedules.NEVER)
            && Schedules.Earliest(x.subs, []) == (None, Schedules.NEVER)
    ensures Schedules.Begin(x) == Schedules.Cursors(0, [], [])
  {}

  lemma NeverLast(v: u64)
    ensures v <= Schedules.NEVER
  {}

  /** Nothing to interleave: the video blocks in turn. */
  method VideoOnly(sink: ClusterSink, region: array<byte>, s: Source, ghost s0: seq<byte>, ghost front: seq<byte>,
                   ghost fields: seq<byte>)
    returns (ghost items: seq<Schedules.Item>)
    requires SourceOk(s) && Schedules.Timed(InputsOf(s)) && |s.audio| == 0 && |s.subs| == 0
    requires Going(s, Schedules.Begin(InputsOf(s)), [], sink.p, region.Length)
    requires Written(s, s0, region[..], sink.p, sink.crc, front, fields, [])
    modifies sink, region
    ensures items == Schedules.Schedule(InputsOf(s), Schedules.Begin(InputsOf(s)))
    ensures Written(s, s0, region[..], sink.p, sink.crc, front, fields, items) && sink.p == region.Length
  {
    hide *;
    NoLanes(InputsOf(s));
    BeginFacts(s);
    var nalCur := 0;
    items := [];
    for i := 0 to |s.blocks|
      invariant Going(s, Schedules.Cursors(i, [], []), items, sink.p, region.Length)
      invariant Written(s, s0, region[..], sink.p, sink.crc, front, fields, items)
      invariant s.isNal ==> nalCur == NalStart(s.blocks, i)
    {
      ghost var st := Schedules.Cursors(i, [], []);
      ghost var s1, p, crc := region[..], sink.p, sink.crc;
      GoingFacts(s, st, items, p, region.Length);
      WrittenFacts(s, s0, s1, p, crc, front, fields, items);
      ghost var done := DoneBytes(s, fields, items);
      CoversIs(sink, done);
      NeverLast(s.pts[s.plan.baseFrame + i]);
      VideoNext(s, st, items, p, region.Length, Schedules.NEVER, Schedules.NEVER);
      nalCur := EmitVideo(sink, region, s, i, nalCur, done);
      CoversIs(sink, done + ItemBlock(s, Schedules.Video(i)));
      WriteDone(s, s0, s1, region[..], p, crc, sink.crc, front, fields, items, Schedules.Video(i));
      items := items + [Schedules.Video(i)];
    }
    NoneNext(s, Schedules.Cursors(|s.blocks|, [], []), items, sink.p, region.Length, None, Schedules.NEVER, None,
             Schedules.NEVER);
  }

  // ---- the cluster

  /** The plan's totals are those of the packets assigned to the cluster. */
  ghost predicate PlannedTotals(s: Source)
    requires SourceOk(s)
  {
    var x, w := InputsOf(s), WeightsOf(s);
    && s.plan.bgTotal == Sum(w.video, 0, |x.video|)
    && s.plan.sbTotal == Schedules.LanesWeight(x.audio, w.audio, Schedules.Begin(x).audio)
    && s.plan.subTotal == Schedules.LanesWeight(x.subs, w.subs, Schedules.Begin(x).subs)
  }

  /** The blocks of the cluster, in the order they are scheduled. */
  ghost function BlocksBytes(s: Source): seq<byte>
    requires SourceOk(s)
  {
    var items := Schedules.Schedule(InputsOf(s), Schedules.Begin(InputsOf(s)));
    ScheduleWithin(s, Schedules.Begin(InputsOf(s)));
    ItemsBytes(s, items)
  }

  lemma ScheduleWithin(s: Source, st: Schedules.Cursors)
    requires SourceOk(s) && Schedules.Ok(InputsOf(s), st)
    ensures AllWithin(s, Schedules.Schedule(InputsOf(s), st))
  {
    hide SourceOk, Schedules.Schedule, Schedules.Ok, Schedules.Within, InputsOf;
    var x := InputsOf(s);
    forall k | 0 <= k < |Schedules.Schedule(x, st)| ensures Schedules.Within(x, Schedules.Schedule(x, st)[k]) {
      Schedules.ScheduledPending(x, st, k);
      Schedules.PendingWithin(x, st, Schedules.Schedule(x, st)[k]);
    }
  }

  lemma HeaderSlices(h0: seq<byte>, h1: seq<byte>, front: seq<byte>, fields: seq<byte>)
    requires Stored(h0, h1, 0, front + fields)
    ensures |front| + |fields| <= |h1| && h1[..|front| + |fields|] == front + fields
            && h1[|front|..|front| + |fields|] == fields
  {}

  /** What the loops start from. */
  lemma Starting(s: Source, s0: seq<byte>, s1: seq<byte>, front: seq<byte>, fields: seq<byte>, cap: nat)
    requires SourceOk(s) && PlannedTotals(s) && cap < SIZE_LIMIT && cap == |front| + |fields| + Layouts.BlocksOf(s.plan)
    requires Stored(s0, s1, 0, front + fields)
    ensures Going(s, Schedules.Begin(InputsOf(s)), [], |front| + |fields|, cap)
    ensures Written(s, s0, s1, |front| + |fields|, Crc32(fields), front, fields, [])
  {
    hide SourceOk, Stored, Crc32, Schedules.Schedule, Schedules.LanesWeight, InputsOf, WeightsOf, Sum, Schedules.Begin,
        Schedules.Countable;
    SourceSchedulable(s);
    BeginFacts(s);
    var sched := Schedules.Schedule(InputsOf(s), Schedules.Begin(InputsOf(s)));
    assert [] + sched == sched;
    assert ItemsBytes(s, []) == [];
    assert fields + [] == fields;
  }

  lemma SealedRegion(s0: seq<byte>, s1: seq<byte>, s2: seq<byte>, head: seq<byte>, done: seq<byte>)
    requires Stored(s0, s1, 0, head + HOLE + done) && |s1| == |head| + 6 + |done|
    requires Stored(s1, s2, |head| + 2, LeBytes(Crc32(done)))
    ensures s2 == head + (CrcElem(Crc32(done)) + done)
  {
    hide Crc32, LeBytes, CrcElem;
    assert s1 == head + HOLE + done;
    PatchedPlaceholder(head, done, Crc32(done));
    assert s2 == s1[..|head| + 2] + LeBytes(Crc32(done)) + s1[|head| + 6..];
    assert (head + CrcElem(Crc32(done))) + done == head + (CrcElem(Crc32(done)) + done);
  }

  lemma NoSubs(s: Source)
    requires SourceOk(s) && PlannedTotals(s)
    ensures |s.subs| == 0 ==> s.plan.subTotal == 0
  {
    hide Sum, VideoOk, AudioOk, SubOk;
  }

  lemma ClusterIs(plan: ClusterPlan, posWidth: nat, blocks: seq<byte>)
    requires posWidth <= 8 && plan.prevSize < U64_LIMIT && |blocks| == Layouts.BlocksOf(plan)
    ensures var content := Layouts.ClusterContentSize(plan.ts, Layouts.BlocksOf(plan), posWidth, plan.prevSize);
            var done := ClusterFields(plan.ts, plan.position, posWidth, plan.prevSize) + blocks;
            Indexes.ClusterBytes(plan, posWidth, blocks) == Head(Layouts.CLUSTER_ID, content)
                + (CrcElem(Crc32(done)) + done)
  {
    hide ClusterFields, Head, CrcElem, Crc32, Layouts.ClusterContentSize, Layouts.BlocksOf;
    Indexes.ClusterBytesLength(plan, posWidth, 0, blocks);
  }

  /**
   * The region, exactly as large as planned, ends up holding the cluster: its header, then every
   * packet of its share once, in schedule order, under a checksum of everything that follows it.
   */
  method BuildCluster(region: array<byte>, s: Source, posWidth: nat)
    requires SourceOk(s) && Schedules.Timed(InputsOf(s)) && PlannedTotals(s)
    requires posWidth <= 8 && s.plan.prevSize < U64_LIMIT
    requires region.Length == s.plan.size == Layouts.ClusterSize(s.plan.ts, Layouts.BlocksOf(s.plan), posWidth,
                                                                 s.plan.prevSize) < SIZE_LIMIT
    modifies region
    ensures region[..] == Indexes.ClusterBytes(s.plan, posWidth, BlocksBytes(s))
    ensures |BlocksBytes(s)| == Layouts.BlocksOf(s.plan)
  {
    hide *;
    NoSubs(s);
    var total := BlockTotal(s);
    ghost var s0 := region[..];
    SizeFacts(s, posWidth);
    ghost var content := Layouts.ClusterContentSize(s.plan.ts, total, posWidth, s.plan.prevSize);
    ghost var head := Head(Layouts.CLUSTER_ID, content);
    ghost var fields := ClusterFields(s.plan.ts, s.plan.position, posWidth, s.plan.prevSize);
    var hdr := new byte[48](_ => 0);
    ghost var h0 := hdr[..];
    var ch := BuildClusterHeader(hdr, s.plan.ts, total, s.plan.position, posWidth, s.plan.prevSize);
    HoleLength();
    HeaderSlices(h0, hdr[..], head + HOLE, fields);
    Store(region, 0, hdr[..ch.len]);
    var sink := new ClusterSink(ch.len, Crc32(hdr[ch.timestampStart..ch.len]));
    Starting(s, s0, region[..], head + HOLE, fields, region.Length);
    ghost var items;
    if |s.audio| == 0 && |s.subs| == 0 {
      items := VideoOnly(sink, region, s, s0, head + HOLE, fields);
    } else {
      items := Interleave(sink, region, s, s0, head + HOLE, fields);
    }
    ghost var s1 := region[..];
    WrittenFacts(s, s0, s1, sink.p, sink.crc, head + HOLE, fields, items);
    WrittenAll(s, s0, s1, sink.p, sink.crc, head + HOLE, fields, items);
    PatchCrc(region, ch.crcOffset, sink.crc);
    SealedRegion(s0, s1, region[..], head, DoneBytes(s, fields, items));
    BlocksLength(s, fields, items);
    ClusterIs(s.plan, posWidth, BlocksBytes(s));
  }

  lemma HoleLength()
    ensures |HOLE| == 6
  {}

  /** The octets of the cluster's blocks; subtitles only count when there are any. */
  method BlockTotal(s: Source) returns (total: nat)
    requires |s.subs| == 0 ==> s.plan.subTotal == 0
    ensures total == Layouts.BlocksOf(s.plan)
  {
    total := s.plan.bgTotal + s.plan.sbTotal + (if |s.subs| > 0 then s.plan.subTotal else 0);
  }

  lemma SizeFacts(s: Source, posWidth: nat)
    requires Layouts.ClusterSize(s.plan.ts, Layouts.BlocksOf(s.plan), posWidth, s.plan.prevSize) < SIZE_LIMIT
    ensures Layouts.ClusterContentSize(s.plan.ts, Layouts.BlocksOf(s.plan), posWidth, s.plan.prevSize) < SIZE_LIMIT
  {}

  lemma WrittenAll(s: Source, s0: seq<byte>, now: seq<byte>, p: nat, crc: Reg, front: seq<byte>, fields: seq<byte>,
                   items: seq<Schedules.Item>)
    requires Written(s, s0, now, p, crc, front, fields, items)
    ensures SourceOk(s) && AllWithin(s, items)
    ensures Stored(s0, now, 0, front + DoneBytes(s, fields, items)) && p == |front| + |DoneBytes(s, fields, items)|
  {
    hide SourceOk, AllWithin, ItemsBytes, Crc32, Stored;
  }

  lemma BlocksLength(s: Source, fields: seq<byte>, items: seq<Schedules.Item>)
    requires SourceOk(s) && items == Schedules.Schedule(InputsOf(s), Schedules.Begin(InputsOf(s)))
             && AllWithin(s, items)
    ensures DoneBytes(s, fields, items) == fields + BlocksBytes(s)
  {
    hide SourceOk, ItemsBytes, Schedules.Schedule;
  }
}
