/** Emitting blocks into a cluster region while the cluster checksum is kept incrementally. */
module ClusterSinks {
  import opened Bytes
  import opened Ebml
  import opened Crc
  import opened Blocks
  import opened Ranges

  class ClusterSink {
    var p: nat
    var crc: Reg

    constructor (p: nat, crc: Reg)
      ensures this.p == p && this.crc == crc
    {
      this.p := p;
      this.crc := crc;
    }

    /** The running checksum is that of `done`. */
    ghost predicate Covers(done: seq<byte>)
      reads this
    {
      crc == Crc32(done)
    }
  }

  // ---- slices of what was stored

  /** The part of a group's start behind the hole. */
  lemma StartSlice(s0: seq<byte>, mid: seq<byte>, s1: seq<byte>, at: nat, outer: seq<byte>, start: seq<byte>, gap: nat,
                   tail: seq<byte>)
    requires Stored(s0, mid, at, outer + HOLE + start)
    requires Stored(mid, s1, at + |outer| + 6 + |start| + gap, tail)
    ensures s1[at + |outer| + 6..at + |outer| + 6 + |start|] == start
  {
    var k := at + |outer| + 6;
    assert mid[k..k + |start|] == start;
    assert s1[k..k + |start|] == mid[k..k + |start|];
  }

  lemma TailSlice(s0: seq<byte>, s2: seq<byte>, at: nat, front: seq<byte>, tail: seq<byte>)
    requires Stored(s0, s2, at, front + tail)
    ensures s2[at + |front|..at + |front| + |tail|] == tail
  {}

  lemma FrontSlice(s0: seq<byte>, s2: seq<byte>, at: nat, front: seq<byte>, tail: seq<byte>)
    requires Stored(s0, s2, at, front + tail)
    ensures s2[at..at + |front|] == front
  {}

  /** What is in front of a later store, and what is behind it. */
  lemma GapEnds(s0: seq<byte>, mid: seq<byte>, s1: seq<byte>, at: nat, x: seq<byte>, gap: nat, z: seq<byte>)
    requires Stored(s0, mid, at, x) && Stored(mid, s1, at + |x| + gap, z)
    ensures |s1| == |s0| && at + |x| + gap + |z| <= |s0|
    ensures s1[..at + |x|] == s0[..at] + x && s1[at + |x| + gap..] == z + s0[at + |x| + gap + |z|..]
  {
    var a, b := at + |x|, at + |x| + gap;
    assert s1[..a] == mid[..a];
    assert mid[b + |z|..] == s0[b + |z|..];
  }

  /** Filling the gap left between a front and a tail. */
  lemma StoredGap(s0: seq<byte>, mid: seq<byte>, s1: seq<byte>, s2: seq<byte>, at: nat, x: seq<byte>, y: seq<byte>,
                  z: seq<byte>)
    requires Stored(s0, mid, at, x) && Stored(mid, s1, at + |x| + |y|, z) && Stored(s1, s2, at + |x|, y)
    ensures Stored(s0, s2, at, x + y + z)
  {
    GapEnds(s0, mid, s1, at, x, |y|, z);
    GapClosed(s0, s1, s2, at, x, y, z);
  }

  lemma GapClosed(s0: seq<byte>, s1: seq<byte>, s2: seq<byte>, at: nat, x: seq<byte>, y: seq<byte>, z: seq<byte>)
    requires |s1| == |s0| && at + |x| + |y| + |z| <= |s0| && Stored(s1, s2, at + |x|, y)
    requires s1[..at + |x|] == s0[..at] + x && s1[at + |x| + |y|..] == z + s0[at + |x| + |y| + |z|..]
    ensures Stored(s0, s2, at, x + y + z)
  {}

  // ---- the steps every group ends with

  lemma RunningCrc(start: seq<byte>, frame: seq<byte>, tail: seq<byte>)
    ensures Xor(Update(Update(Update(INIT, start), frame), tail), FINAL_XOR) == Crc32(start + frame + tail)
  {
    hide Update, Xor;
    UpdateConcat(INIT, start, frame);
    UpdateConcat(INIT, start + frame, tail);
  }

  /** The checksum of the body goes into the hole, and the whole group under the sink's checksum. */
  method FinishGroup(sink: ClusterSink, region: array<byte>, base: nat, pre: nat, bodyLen: nat, bodyCrc: Reg,
                     ghost s0: seq<byte>, ghost outer: seq<byte>, ghost body: seq<byte>, ghost done: seq<byte>)
    requires Stored(s0, region[..], base, outer + HOLE + body)
    requires pre == |outer| + 6 && bodyLen == |body| && bodyCrc == Crc32(body)
    requires sink.Covers(done)
    modifies sink, region
    ensures Stored(s0, region[..], base, outer + (CrcElem(Crc32(body)) + body))
    ensures sink.p == base + pre + bodyLen && sink.Covers(done + (outer + (CrcElem(Crc32(body)) + body)))
  {
    hide Update, Xor, LeBytes, CrcElem, Combine, Crc32, Stored;
    ghost var s3 := region[..];
    ghost var sealed := outer + CrcElem(Crc32(body));
    GroupFits(s0, s3, base, outer, body);
    PatchCrc(region, base + pre - 4, bodyCrc);
    StoredPatch(s0, s3, region[..], base, outer + HOLE + body, |outer| + 2, LeBytes(Crc32(body)));
    PatchedPlaceholder(outer, body, Crc32(body));
    FrontSlice(s0, region[..], base, sealed, body);
    sink.p := base + pre + bodyLen;
    var pc := Crc32(region[base..base + pre]);
    sink.crc := Combine(sink.crc, pc, pre);
    CombineLaw(done, sealed);
    sink.crc := Combine(sink.crc, bodyCrc, bodyLen);
    CombineLaw(done + sealed, body);
    Regroup(done, outer, CrcElem(Crc32(body)), body);
  }

  lemma GroupFits(s0: seq<byte>, s3: seq<byte>, base: nat, outer: seq<byte>, body: seq<byte>)
    requires Stored(s0, s3, base, outer + HOLE + body)
    ensures base + |outer| + 6 + |body| <= |s3|
  {}

  lemma Regroup(done: seq<byte>, outer: seq<byte>, c: seq<byte>, body: seq<byte>)
    ensures (done + (outer + c)) + body == done + (outer + (c + body))
    ensures (outer + c) + body == outer + (c + body)
  {}

  // ---- emitters

  /** A block group lands at the cursor; the checksum now covers it too. */
  method EmitBlockGroup(sink: ClusterSink, region: array<byte>, track: nat, data: seq<byte>, rel: i16, dur: u64,
                        isKf: bool,
                        ghost done: seq<byte>)
    requires track < SIZE_LIMIT && BlockGroupSize(track, |data|, isKf, rel, dur) < SIZE_LIMIT
    requires sink.p + BlockGroupSize(track, |data|, isKf, rel, dur) <= region.Length
    requires sink.Covers(done)
    modifies sink, region
    ensures Stored(old(region[..]), region[..], old(sink.p), BlockGroup(track, rel, data, isKf, dur))
    ensures sink.p == old(sink.p) + BlockGroupSize(track, |data|, isKf, rel, dur)
    ensures sink.Covers(done + BlockGroup(track, rel, data, isKf, dur))
  {
    hide Stored, Update, Xor, Crc32, Head, BlockStart, GroupTail, BlockGroupSize, Group, VintSize, IdSize;
    var base := sink.p;
    ghost var s0 := region[..];
    ghost var tail := GroupTail(rel, isKf, dur);
    var bg, mid := BuildBlockGroup(region, base, track, |data|, rel, isKf, dur);
    BlockGroupLength(track, rel, data, isKf, dur);
    EmitFrame(sink, region, base, bg, track, rel, data, s0, mid, tail, done);
  }

  /** The checksum of the block header already written. */
  method StartCrc(region: array<byte>, base: nat, bg: BlockGroupParts, ghost track: nat, ghost rel: i16,
                  ghost flen: nat,
                  ghost s0: seq<byte>, ghost mid: seq<byte>, ghost tail: seq<byte>) returns (c: Reg)
    requires Built(s0, mid, region[..], base, bg, track, rel, flen, tail)
    ensures base + bg.beforeFrameLen + flen + bg.afterFrameLen <= region.Length
    ensures c == Update(INIT, BlockStart(track, rel, flen))
  {
    hide Stored, Update, Head, BlockStart, VintSize, GroupContentSize;
    ghost var outer := Head(BLOCK_GROUP_ID, GroupContentSize(track, flen, |tail|));
    ghost var start := BlockStart(track, rel, flen);
    BuiltFits(s0, mid, region[..], base, outer, start, flen, tail);
    StartSlice(s0, mid, region[..], base, outer, start, flen, tail);
    c := Update(INIT, region[base + bg.crcOffset + 4..base + bg.beforeFrameLen]);
  }

  /** With the frame in its gap: the checksum runs over the tail too, and the group is sealed. */
  method FinishFrame(sink: ClusterSink, region: array<byte>, base: nat, bg: BlockGroupParts, ghost track: nat,
                     ghost rel: i16,
                     flen: nat, c0: Reg, ghost data: seq<byte>,
                     ghost s0: seq<byte>, ghost mid: seq<byte>, ghost s1: seq<byte>, ghost tail: seq<byte>,
                         ghost done: seq<byte>)
    requires flen == |data| && Built(s0, mid, s1, base, bg, track, rel, flen, tail)
    requires Stored(s1, region[..], base + bg.beforeFrameLen, data)
    requires c0 == Update(Update(INIT, BlockStart(track, rel, flen)), data)
    requires sink.Covers(done)
    modifies sink, region
    ensures Stored(s0, region[..], base, Group(track, rel, data, tail))
    ensures sink.p == base + |Group(track, rel, data, tail)| && sink.Covers(done + Group(track, rel, data, tail))
  {
    hide *;
    ghost var outer := Head(BLOCK_GROUP_ID, GroupContentSize(track, flen, |tail|));
    ghost var start := BlockStart(track, rel, flen);
    var pre, bf, af := bg.crcOffset + 4, bg.beforeFrameLen, bg.afterFrameLen;
    FinishFacts(s0, mid, s1, region[..], base, bg, track, rel, data, tail);
    var bodyCrc := BodyCrc(region, c0, base + bf + flen, af, base, s0, outer + HOLE, start, data, tail);
    FinishGroup(sink, region, base, pre, bf - pre + flen + af, bodyCrc, s0, outer, GroupBody(track, rel, data, tail),
                done);
  }

  /** Where the parts of a finished group are, in the terms of the code that seals it. */
  lemma FinishFacts(s0: seq<byte>, mid: seq<byte>, s1: seq<byte>, s2: seq<byte>, base: nat, bg: BlockGroupParts,
                    track: nat, rel: i16, data: seq<byte>, tail: seq<byte>)
    requires Built(s0, mid, s1, base, bg, track, rel, |data|, tail)
    requires Stored(s1, s2, base + bg.beforeFrameLen, data)
    ensures var outer := Head(BLOCK_GROUP_ID, GroupContentSize(track, |data|, |tail|));
            var start := BlockStart(track, rel, |data|);
            var body := GroupBody(track, rel, data, tail);
            && Stored(s0, s2, base, outer + HOLE + body)
            && Stored(s0, s2, base, (outer + HOLE + start + data) + tail)
            && body == start + data + tail
            && |outer + HOLE + start + data| == bg.beforeFrameLen + |data|
            && bg.afterFrameLen == |tail| && bg.crcOffset + 4 == |outer| + 6
            && bg.beforeFrameLen - (bg.crcOffset + 4) + |data| + bg.afterFrameLen == |body|
            && Group(track, rel, data, tail) == outer + (CrcElem(Crc32(body)) + body)
            && |Group(track, rel, data, tail)| == bg.crcOffset + 4 + |body|
  {
    hide Stored, CrcElem, Head, BlockStart, VintSize, Group, GroupBody, GroupContentSize, Crc32;
    var outer := Head(BLOCK_GROUP_ID, GroupContentSize(track, |data|, |tail|));
    GapFilled(s0, mid, s1, s2, base, outer, BlockStart(track, rel, |data|), data, tail);
    GroupParts(track, rel, data, tail);
  }

  lemma GapFilled(s0: seq<byte>, mid: seq<byte>, s1: seq<byte>, s2: seq<byte>, at: nat,
                  outer: seq<byte>, start: seq<byte>, data: seq<byte>, tail: seq<byte>)
    requires Stored(s0, mid, at, outer + HOLE + start)
    requires Stored(mid, s1, at + |outer| + 6 + |start| + |data|, tail)
    requires Stored(s1, s2, at + |outer| + 6 + |start|, data)
    ensures Stored(s0, s2, at, outer + HOLE + (start + data + tail))
    ensures Stored(s0, s2, at, (outer + HOLE + start + data) + tail)
  {
    hide Stored;
    StoredGap(s0, mid, s1, s2, at, outer + HOLE + start, data, tail);
    BodyRegroup(outer, start, data, tail);
  }

  method BodyCrc(region: array<byte>, c0: Reg, from: nat, len: nat, ghost base: nat, ghost s0: seq<byte>,
                 ghost front: seq<byte>, ghost start: seq<byte>, ghost data: seq<byte>, ghost tail: seq<byte>)
                   returns (crc: Reg)
    requires Stored(s0, region[..], base, (front + start + data) + tail)
    requires from == base + |front + start + data| && len == |tail|
    requires c0 == Update(Update(INIT, start), data)
    ensures crc == Crc32(start + data + tail)
  {
    hide Stored, Update, Xor, Crc32;
    var c := CrcOfLast(region, c0, from, len, base, s0, front + start + data, tail);
    RunningCrc(start, data, tail);
    crc := Xor(c, FINAL_XOR);
  }

  /** The running checksum over the last `len` octets of what was stored. */
  method CrcOfLast(region: array<byte>, c0: Reg, from: nat, len: nat, ghost base: nat, ghost s0: seq<byte>,
                   ghost front: seq<byte>, ghost tail: seq<byte>) returns (c: Reg)
    requires Stored(s0, region[..], base, front + tail) && from == base + |front| && len == |tail|
    ensures c == Update(c0, tail)
  {
    hide Update;
    TailSlice(s0, region[..], base, front, tail);
    c := Update(c0, region[from..from + len]);
  }

  /** The frame between what the builder wrote, the checksums over both. */
  method EmitFrame(sink: ClusterSink, region: array<byte>, base: nat, bg: BlockGroupParts, ghost track: nat,
                   ghost rel: i16,
                   data: seq<byte>, ghost s0: seq<byte>, ghost mid: seq<byte>, ghost tail: seq<byte>,
                       ghost done: seq<byte>)
    requires Built(s0, mid, region[..], base, bg, track, rel, |data|, tail)
    requires sink.Covers(done)
    modifies sink, region
    ensures Stored(s0, region[..], base, Group(track, rel, data, tail))
    ensures sink.p == base + |Group(track, rel, data, tail)| && sink.Covers(done + Group(track, rel, data, tail))
  {
    hide Stored, Update, Built, BlockStart, Group;
    ghost var s1 := region[..];
    var c := StartCrc(region, base, bg, track, rel, |data|, s0, mid, tail);
    Store(region, base + bg.beforeFrameLen, data);
    c := Update(c, data);
    FinishFrame(sink, region, base, bg, track, rel, |data|, c, data, s0, mid, s1, tail, done);
  }

  lemma BuiltFits(s0: seq<byte>, mid: seq<byte>, s1: seq<byte>, at: nat, outer: seq<byte>, start: seq<byte>, gap: nat,
                  tail: seq<byte>)
    requires Stored(s0, mid, at, outer + HOLE + start)
    requires Stored(mid, s1, at + |outer| + 6 + |start| + gap, tail)
    ensures at + |outer| + 6 + |start| + gap + |tail| <= |s1|
  {}

  lemma BodyRegroup(outer: seq<byte>, start: seq<byte>, data: seq<byte>, tail: seq<byte>)
    ensures (outer + HOLE + start) + data + tail == outer + HOLE + (start + data + tail)
  {}

  /** A group is its outer head, its checksum, and start, frame and tail. */
  lemma GroupParts(track: nat, rel: i16, frame: seq<byte>, tail: seq<byte>)
    ensures GroupBody(track, rel, frame, tail) == BlockStart(track, rel, |frame|) + frame + tail
    ensures var body := GroupBody(track, rel, frame, tail);
            var outer := Head(BLOCK_GROUP_ID, GroupContentSize(track, |frame|, |tail|));
            && Group(track, rel, frame, tail) == outer + (CrcElem(Crc32(body)) + body)
            && |Group(track, rel, frame, tail)| == |outer| + 6 + |body|
            && |body| == |BlockStart(track, rel, |frame|)| + |frame| + |tail|
  {
    hide VintSize, Head, IdSize, BlockHead, Crc32, CrcElem;
    IdOctets();
    var head := Head(BLOCK_ID, VintSize(track) + 3 + |frame|);
    var block := BlockHead(track, rel, BLOCK_FLAGS);
    assert head + (block + frame) + tail == head + block + frame + tail;
  }

  /** As EmitBlockGroup, the frame assembled from NAL extents. */
  method EmitNal(sink: ClusterSink, region: array<byte>, track: nat, nals: seq<ByteRange>, vsrc: seq<byte>, flen: nat,
                 rel: i16, dur: u64, isKf: bool, ghost done: seq<byte>)
    requires forall r :: r in nals ==> InRange(r, vsrc)
    requires flen == NalOctets(nals)
    requires track < SIZE_LIMIT && BlockGroupSize(track, flen, isKf, rel, dur) < SIZE_LIMIT
    requires sink.p + BlockGroupSize(track, flen, isKf, rel, dur) <= region.Length
    requires sink.Covers(done)
    modifies sink, region
    ensures Stored(old(region[..]), region[..], old(sink.p), BlockGroup(track, rel, NalBytes(nals, vsrc), isKf, dur))
    ensures sink.p == old(sink.p) + BlockGroupSize(track, flen, isKf, rel, dur)
    ensures sink.Covers(done + BlockGroup(track, rel, NalBytes(nals, vsrc), isKf, dur))
  {
    hide Stored, Update, Built, BlockStart, GroupTail, BlockGroupSize, Group, NalBytes, Crc32;
    var base := sink.p;
    ghost var s0 := region[..];
    ghost var data, tail := NalBytes(nals, vsrc), GroupTail(rel, isKf, dur);
    var bg, mid := BuildBlockGroup(region, base, track, flen, rel, isKf, dur);
    ghost var s1 := region[..];
    var c := StartCrc(region, base, bg, track, rel, flen, s0, mid, tail);
    c := CopyNals(region, base + bg.beforeFrameLen, nals, vsrc, c);
    BlockGroupLength(track, rel, data, isKf, dur);
    FinishFrame(sink, region, base, bg, track, rel, flen, c, data, s0, mid, s1, tail, done);
  }

  method CopyNals(region: array<byte>, at: nat, nals: seq<ByteRange>, vsrc: seq<byte>, c0: Reg) returns (c: Reg)
    requires forall r :: r in nals ==> InRange(r, vsrc)
    requires at + NalOctets(nals) <= region.Length
    modifies region
    ensures Stored(old(region[..]), region[..], at, NalBytes(nals, vsrc))
    ensures c == Update(c0, NalBytes(nals, vsrc))
  {
    hide Stored, Update;
    ghost var s0 := region[..];
    c := c0;
    var fp := at;
    StoredNothing(s0, at);
    UpdateNothing(c0);
    for k := 0 to |nals|
      invariant fp == at + NalOctets(nals[..k])
      invariant Stored(s0, region[..], at, NalBytes(nals[..k], vsrc))
      invariant c == Update(c0, NalBytes(nals[..k], vsrc))
    {
      var nal := nals[k];
      ghost var before := NalBytes(nals[..k], vsrc);
      assert nals[..k + 1][..k] == nals[..k];
      NalOctetsMono(nals, k);
      ghost var s1 := region[..];
      c := CopyNal(region, fp, nal, vsrc, c);
      ghost var piece := BeBytes(nal.len, 4) + Slice(nal, vsrc);
      StoredThen(s0, s1, region[..], at, before, piece);
      UpdateConcat(c0, before, piece);
      fp := fp + 4 + nal.len;
    }
    assert nals[..|nals|] == nals;
  }

  lemma UpdateNothing(c: Reg)
    ensures Update(c, []) == c
  {}

  method CopyNal(region: array<byte>, fp: nat, nal: ByteRange, vsrc: seq<byte>, c0: Reg) returns (c: Reg)
    requires InRange(nal, vsrc) && fp + 4 + nal.len <= region.Length
    modifies region
    ensures Stored(old(region[..]), region[..], fp, BeBytes(nal.len, 4) + Slice(nal, vsrc))
    ensures c == Update(c0, BeBytes(nal.len, 4) + Slice(nal, vsrc))
  {
    hide Stored, Update, BeBytes;
    var lb := BeBytes(nal.len, 4);
    Store(region, fp, lb);
    ghost var s1 := region[..];
    c := Update(c0, lb);
    Store(region, fp + 4, Slice(nal, vsrc));
    c := Update(c, Slice(nal, vsrc));
    StoredThen(old(region[..]), s1, region[..], fp, lb, Slice(nal, vsrc));
    UpdateConcat(c0, lb, Slice(nal, vsrc));
  }

  method EmitSimpleBlock(sink: ClusterSink, region: array<byte>, track: nat, data: seq<byte>, rel: i16,
                         ghost done: seq<byte>)
    requires track < SIZE_LIMIT && SimpleBlockSize(track, |data|) < SIZE_LIMIT
    requires sink.p + SimpleBlockSize(track, |data|) <= region.Length
    requires sink.Covers(done)
    modifies sink, region
    ensures Stored(old(region[..]), region[..], old(sink.p), SimpleBlock(track, rel, data))
    ensures sink.p == old(sink.p) + SimpleBlockSize(track, |data|)
    ensures sink.Covers(done + SimpleBlock(track, rel, data))
  {
    hide Stored, Update, Xor, SimpleBlockSize, SimpleStart, SimpleBlock, Crc32;
    var base := sink.p;
    ghost var s0 := region[..];
    ghost var start := SimpleStart(track, rel, |data|);
    var off := BuildSimpleBlock(region, base, track, rel, |data|);
    ghost var s1 := region[..];
    assert [] + start == start;
    var c := CrcOfLast(region, INIT, base, off, base, s0, [], start);
    Store(region, base + off, data);
    c := Update(c, data);
    StoredThen(s0, s1, region[..], base, start, data);
    SimpleParts(track, rel, data);
    SimpleCrc(start, data);
    Advance(sink, Xor(c, FINAL_XOR), off + |data|, done, start + data);
  }

  /** A finished block goes under the sink's checksum. */
  method Advance(sink: ClusterSink, crc: Reg, len: nat, ghost done: seq<byte>, ghost block: seq<byte>)
    requires crc == Crc32(block) && len == |block| && sink.Covers(done)
    modifies sink
    ensures sink.p == old(sink.p) + len && sink.Covers(done + block)
  {
    CombineLaw(done, block);
    sink.crc := Combine(sink.crc, crc, len);
    sink.p := sink.p + len;
  }

  lemma SimpleParts(track: nat, rel: i16, data: seq<byte>)
    ensures SimpleBlock(track, rel, data) == SimpleStart(track, rel, |data|) + data
  {
    hide VintSize, Head, BlockHead;
    var head := Head(SIMPLE_BLOCK_ID, VintSize(track) + 3 + |data|);
    assert head + (BlockHead(track, rel, KEYFRAME) + data) == head + BlockHead(track, rel, KEYFRAME) + data;
  }

  lemma SimpleCrc(start: seq<byte>, data: seq<byte>)
    ensures Xor(Update(Update(INIT, start), data), FINAL_XOR) == Crc32(start + data)
  {
    hide Update, Xor;
    UpdateConcat(INIT, start, data);
  }

  /** An audio packet with a trimmed tail. */
  method EmitPadBlock(sink: ClusterSink, region: array<byte>, track: nat, data: seq<byte>, rel: i16, pad: i64,
                      ghost done: seq<byte>)
    requires track < SIZE_LIMIT && PadGroupSize(track, |data|, pad) < SIZE_LIMIT
    requires sink.p + PadGroupSize(track, |data|, pad) <= region.Length
    requires sink.Covers(done)
    modifies sink, region
    ensures Stored(old(region[..]), region[..], old(sink.p), PadGroup(track, rel, data, pad))
    ensures sink.p == old(sink.p) + PadGroupSize(track, |data|, pad)
    ensures sink.Covers(done + PadGroup(track, rel, data, pad))
  {
    hide Stored, Update, Xor, Crc32, Head, BlockStart, PadTail, PadGroupSize, Group, VintSize, IdSize;
    var base := sink.p;
    ghost var s0 := region[..];
    var bg, mid := BuildPadGroup(region, base, track, |data|, rel, pad);
    PadGroupLength(track, rel, data, pad);
    EmitFrame(sink, region, base, bg, track, rel, data, s0, mid, PadTail(pad), done);
  }
}
