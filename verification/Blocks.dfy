/** Blocks of a cluster: planned sizes, octets, and the writers that keep the cluster checksum. */
module Blocks {
  import opened Bytes
  import opened Ebml
  import opened Crc

  const BLOCK_GROUP_ID: nat := 0xA0
  const BLOCK_ID: nat := 0xA1
  const SIMPLE_BLOCK_ID: nat := 0xA3
  const BLOCK_DURATION: nat := 0x9B
  const REFERENCE_BLOCK: nat := 0xFB
  const DISCARD_PADDING: nat := 0x75A2
  const BLOCK_FLAGS: byte := 0x00
  const KEYFRAME: byte := 0x80
  const PAD_HEAD: nat := 3 // 2-octet ID and 1-octet length

  // ---- planned sizes

  function BlockGroupSize(track: nat, frameSize: nat, isKeyframe: bool, rel: i16, duration: u64): nat
  {
    var blockContent := VintSize(track) + 3 + frameSize;
    var blockTotal := 1 + VintSize(blockContent) + blockContent;
    var durTotal := 2 + UintSize(duration);
    var refTotal := if isKeyframe then 0 else 2 + SintSize(0 - rel);
    var content := CRC_ELEMENT_LEN + blockTotal + durTotal + refTotal;
    1 + VintSize(content) + content
  }

  function PadGroupSize(track: nat, frameSize: nat, pad: i64): nat
  {
    var blockContent := VintSize(track) + 3 + frameSize;
    var content := CRC_ELEMENT_LEN + 1 + VintSize(blockContent) + blockContent + PAD_HEAD + SintSize(pad);
    1 + VintSize(content) + content
  }

  function SimpleBlockSize(track: nat, dataLen: nat): nat
  {
    var content := VintSize(track) + 3 + dataLen;
    1 + VintSize(content) + content
  }

  // ---- octets

  /** Track number, relative timestamp and flags in front of a frame. */
  function BlockHead(track: nat, rel: i16, flags: byte): (s: seq<byte>)
    ensures |s| == VintSize(track) + 3
  {
    Vint(track) + SignedBytes(rel, 2) + [flags]
  }

  function SimpleBlock(track: nat, rel: i16, data: seq<byte>): seq<byte>
  {
    Elem(SIMPLE_BLOCK_ID, BlockHead(track, rel, KEYFRAME) + data)
  }

  /** BlockDuration, then ReferenceBlock unless a keyframe. */
  function GroupTail(rel: i16, isKeyframe: bool, duration: u64): seq<byte>
  {
    UintElem(BLOCK_DURATION, duration) + Reference(rel, isKeyframe)
  }

  function Reference(rel: i16, isKeyframe: bool): seq<byte>
  {
    if isKeyframe then [] else SintElem(REFERENCE_BLOCK, 0 - rel)
  }

  function PadTail(pad: i64): seq<byte> { SintElem(DISCARD_PADDING, pad) }

  /** What the checksum of a block group covers. */
  function GroupBody(track: nat, rel: i16, frame: seq<byte>, tail: seq<byte>): seq<byte>
  {
    Elem(BLOCK_ID, BlockHead(track, rel, BLOCK_FLAGS) + frame) + tail
  }

  function Group(track: nat, rel: i16, frame: seq<byte>, tail: seq<byte>): seq<byte>
  {
    var body := GroupBody(track, rel, frame, tail);
    Elem(BLOCK_GROUP_ID, CrcElem(Crc32(body)) + body)
  }

  function BlockGroup(track: nat, rel: i16, frame: seq<byte>, isKeyframe: bool, duration: u64): seq<byte>
  {
    Group(track, rel, frame, GroupTail(rel, isKeyframe, duration))
  }

  function PadGroup(track: nat, rel: i16, frame: seq<byte>, pad: i64): seq<byte>
  {
    Group(track, rel, frame, PadTail(pad))
  }

  // ---- planned equals written

  /** IDs of one octet, and the two octets of DiscardPadding. */
  lemma IdOctets()
    ensures IdSize(BLOCK_GROUP_ID) == 1 && Id(BLOCK_GROUP_ID) == [0xA0]
    ensures IdSize(BLOCK_ID) == 1 && Id(BLOCK_ID) == [0xA1]
    ensures IdSize(SIMPLE_BLOCK_ID) == 1 && Id(SIMPLE_BLOCK_ID) == [0xA3]
    ensures IdSize(BLOCK_DURATION) == 1 && IdSize(REFERENCE_BLOCK) == 1 && IdSize(DISCARD_PADDING) == 2
  {
    ShortId(BLOCK_GROUP_ID);
    ShortId(BLOCK_ID);
    ShortId(SIMPLE_BLOCK_ID);
    ShortId(BLOCK_DURATION);
    ShortId(REFERENCE_BLOCK);
    UintSizeLeast(DISCARD_PADDING, 1);
    UintSizeLeast(DISCARD_PADDING, 2);
    assert Pow2(8) == 256;
    Pow2Add(8, 8);
  }

  lemma TailLength(rel: i16, isKeyframe: bool, duration: u64)
    ensures |GroupTail(rel, isKeyframe, duration)|
         == 2 + UintSize(duration) + if isKeyframe then 0 else 2 + SintSize(0 - rel)
  {
    hide UintElem, SintElem, IdSize, UintSize, SintSize;
    IdOctets();
    UintElemLen(BLOCK_DURATION, duration);
    SintElemLen(REFERENCE_BLOCK, 0 - rel);
  }

  lemma PadTailLength(pad: i64)
    ensures |PadTail(pad)| == PAD_HEAD + SintSize(pad)
  {
    hide SintElem, IdSize, SintSize;
    IdOctets();
    SintElemLen(DISCARD_PADDING, pad);
  }

  lemma GroupLength(track: nat, rel: i16, frame: seq<byte>, tail: seq<byte>)
    ensures var blockContent := VintSize(track) + 3 + |frame|;
            var content := CRC_ELEMENT_LEN + 1 + VintSize(blockContent) + blockContent + |tail|;
            && |GroupBody(track, rel, frame, tail)| == content - CRC_ELEMENT_LEN
            && |Group(track, rel, frame, tail)| == 1 + VintSize(content) + content
  {
    hide Elem, IdSize, VintSize, Crc32, CrcElem, BlockHead;
    IdOctets();
  }

  /** `block_group_size` is the length of the block group. */
  lemma BlockGroupLength(track: nat, rel: i16, frame: seq<byte>, isKeyframe: bool, duration: u64)
    ensures |BlockGroup(track, rel, frame, isKeyframe, duration)|
         == BlockGroupSize(track, |frame|, isKeyframe, rel, duration)
  {
    hide Group, GroupTail, VintSize, UintSize, SintSize;
    TailLength(rel, isKeyframe, duration);
    GroupLength(track, rel, frame, GroupTail(rel, isKeyframe, duration));
  }

  /** A keyframe's size does not depend on its timestamp. */
  lemma KeyframeSize(track: nat, frameSize: nat, rel: i16, duration: u64)
    ensures BlockGroupSize(track, frameSize, true, rel, duration) == BlockGroupSize(track, frameSize, true, 0, duration)
  {}

  lemma PadGroupLength(track: nat, rel: i16, frame: seq<byte>, pad: i64)
    ensures |PadGroup(track, rel, frame, pad)| == PadGroupSize(track, |frame|, pad)
  {
    hide Group, PadTail, VintSize, SintSize;
    PadTailLength(pad);
    GroupLength(track, rel, frame, PadTail(pad));
  }

  lemma SimpleBlockLength(track: nat, rel: i16, data: seq<byte>)
    ensures |SimpleBlock(track, rel, data)| == SimpleBlockSize(track, |data|)
  {
    hide Elem, IdSize, VintSize, BlockHead;
    IdOctets();
  }

  // ---- writers

  const HOLE: seq<byte> := [0xBF, 0x84, 0, 0, 0, 0]

  datatype BlockGroupParts = BlockGroupParts(beforeFrameLen: nat, afterFrameLen: nat, crcOffset: nat)

  /** The block element up to its frame. */
  function BlockStart(track: nat, rel: i16, frameLen: nat): (s: seq<byte>)
    ensures |s| == IdSize(BLOCK_ID) + VintSize(VintSize(track) + 3 + frameLen) + VintSize(track) + 3
  {
    Head(BLOCK_ID, VintSize(track) + 3 + frameLen) + BlockHead(track, rel, BLOCK_FLAGS)
  }

  /** Content octets of a block group whose tail takes `tailLen`. */
  function GroupContentSize(track: nat, frameLen: nat, tailLen: nat): nat
  {
    var blockContent := VintSize(track) + 3 + frameLen;
    CRC_ELEMENT_LEN + 1 + VintSize(blockContent) + blockContent + tailLen
  }

  method WriteBlockHead(out: array<byte>, at: nat, track: nat, rel: i16, flags: byte) returns (n: nat)
    requires track < SIZE_LIMIT && at + VintSize(track) + 3 <= out.Length
    modifies out
    ensures n == VintSize(track) + 3 && Stored(old(out[..]), out[..], at, BlockHead(track, rel, flags))
  {
    hide VintSize, Vint, SignedBytes, Stored;
    ghost var s0 := out[..];
    n := VintEncode(track, out, at);
    ghost var s1 := out[..];
    Store(out, at + n, SignedBytes(rel, 2));
    ghost var s2 := out[..];
    Store(out, at + n + 2, [flags]);
    StoredThen3(s0, s1, s2, out[..], at, Vint(track), SignedBytes(rel, 2), [flags]);
    n := n + 3;
  }

  /** Group ID and length, an empty checksum, block ID and length, block head. */
  method WriteGroupStart(out: array<byte>, at: nat, track: nat, rel: i16, frameLen: nat, tailLen: nat)
    returns (parts: BlockGroupParts)
    requires track < SIZE_LIMIT && GroupContentSize(track, frameLen, tailLen) < SIZE_LIMIT
    requires at + |Head(BLOCK_GROUP_ID, GroupContentSize(track, frameLen, tailLen))| + CRC_ELEMENT_LEN
             + |BlockStart(track, rel, frameLen)| <= out.Length
    modifies out
    ensures var outer := Head(BLOCK_GROUP_ID, GroupContentSize(track, frameLen, tailLen));
            && parts == BlockGroupParts(|outer| + CRC_ELEMENT_LEN + |BlockStart(track, rel, frameLen)|, tailLen,
                                        |outer| + 2)
            && Stored(old(out[..]), out[..], at, outer + HOLE + BlockStart(track, rel, frameLen))
  {
    hide VintSize, IdSize, Head, BlockHead, Stored;
    ghost var outer := Head(BLOCK_GROUP_ID, GroupContentSize(track, frameLen, tailLen));
    ghost var s0 := out[..];
    var n := WriteMasterHead(BLOCK_GROUP_ID, GroupContentSize(track, frameLen, tailLen), out, at);
    ghost var s1 := out[..];
    var crcOffset := n + 2;
    var m := WriteCrcPlaceholder(out, at + n);
    ghost var s2 := out[..];
    n := n + m;
    m := WriteBlockStart(out, at + n, track, rel, frameLen);
    StoredThen3(s0, s1, s2, out[..], at, outer, HOLE, BlockStart(track, rel, frameLen));
    n := n + m;
    parts := BlockGroupParts(n, tailLen, crcOffset);
  }

  method WriteBlockStart(out: array<byte>, at: nat, track: nat, rel: i16, frameLen: nat) returns (n: nat)
    requires track < SIZE_LIMIT && VintSize(track) + 3 + frameLen < SIZE_LIMIT
    requires at + |BlockStart(track, rel, frameLen)| <= out.Length
    modifies out
    ensures n == |BlockStart(track, rel, frameLen)|
    ensures Stored(old(out[..]), out[..], at, BlockStart(track, rel, frameLen))
  {
    hide VintSize, IdSize, Head, BlockHead, Stored;
    n := WriteMasterHead(BLOCK_ID, VintSize(track) + 3 + frameLen, out, at);
    ghost var s1 := out[..];
    var m := WriteBlockHead(out, at + n, track, rel, BLOCK_FLAGS);
    StoredThen(old(out[..]), s1, out[..], at, Head(BLOCK_ID, VintSize(track) + 3 + frameLen),
               BlockHead(track, rel, BLOCK_FLAGS));
    n := n + m;
  }

  method WriteGroupTail(out: array<byte>, at: nat, rel: i16, isKeyframe: bool, duration: u64)
    requires at + |GroupTail(rel, isKeyframe, duration)| <= out.Length
    modifies out
    ensures Stored(old(out[..]), out[..], at, GroupTail(rel, isKeyframe, duration))
  {
    hide UintElem, UintElemSize, Reference, Stored;
    UintElemLen(BLOCK_DURATION, duration);
    var n := WriteUint(BLOCK_DURATION, duration, out, at);
    ghost var s1 := out[..];
    WriteReference(out, at + n, rel, isKeyframe);
    StoredThen(old(out[..]), s1, out[..], at, UintElem(BLOCK_DURATION, duration), Reference(rel, isKeyframe));
  }

  method WriteReference(out: array<byte>, at: nat, rel: i16, isKeyframe: bool)
    requires at + |Reference(rel, isKeyframe)| <= out.Length
    modifies out
    ensures Stored(old(out[..]), out[..], at, Reference(rel, isKeyframe))
  {
    hide SintElem, SintSize, IdSize, Stored;
    if isKeyframe {
      StoredNothing(out[..], at);
    } else {
      SintElemLen(REFERENCE_BLOCK, 0 - rel);
      var _ := WriteSint(REFERENCE_BLOCK, 0 - rel, out, at);
    }
  }

  /** Everything of the group but its frame and checksum; `mid` is the buffer between the two parts. */
  method BuildBlockGroup(out: array<byte>, at: nat, track: nat, frameLen: nat, rel: i16, isKeyframe: bool,
                         duration: u64)
    returns (parts: BlockGroupParts, ghost mid: seq<byte>)
    requires track < SIZE_LIMIT && BlockGroupSize(track, frameLen, isKeyframe, rel, duration) < SIZE_LIMIT
    requires at + BlockGroupSize(track, frameLen, isKeyframe, rel, duration) <= out.Length
    modifies out
    ensures Built(old(out[..]), mid, out[..], at, parts, track, rel, frameLen, GroupTail(rel, isKeyframe, duration))
  {
    hide Stored, Head, BlockStart, GroupTail, VintSize, UintSize, SintSize;
    TailLength(rel, isKeyframe, duration);
    GroupStartLength(track, rel, frameLen, |GroupTail(rel, isKeyframe, duration)|);
    var tailLen := 2 + UintSize(duration) + if isKeyframe then 0 else 2 + SintSize(0 - rel);
    parts := WriteGroupStart(out, at, track, rel, frameLen, tailLen);
    mid := out[..];
    WriteGroupTail(out, at + parts.beforeFrameLen + frameLen, rel, isKeyframe, duration);
  }

  method BuildPadGroup(out: array<byte>, at: nat, track: nat, frameLen: nat, rel: i16, pad: i64)
    returns (parts: BlockGroupParts, ghost mid: seq<byte>)
    requires track < SIZE_LIMIT && PadGroupSize(track, frameLen, pad) < SIZE_LIMIT
    requires at + PadGroupSize(track, frameLen, pad) <= out.Length
    modifies out
    ensures Built(old(out[..]), mid, out[..], at, parts, track, rel, frameLen, PadTail(pad))
  {
    hide Stored, Head, BlockStart, VintSize, SintSize, SintElem, IdSize;
    PadTailLength(pad);
    IdOctets();
    GroupStartLength(track, rel, frameLen, |PadTail(pad)|);
    parts := WriteGroupStart(out, at, track, rel, frameLen, PAD_HEAD + SintSize(pad));
    mid := out[..];
    var _ := WriteSint(DISCARD_PADDING, pad, out, at + parts.beforeFrameLen + frameLen);
  }

  ghost predicate Built(s0: seq<byte>, mid: seq<byte>, s1: seq<byte>, at: nat, parts: BlockGroupParts,
                        track: nat, rel: i16, frameLen: nat, tail: seq<byte>)
  {
    var outer := Head(BLOCK_GROUP_ID, GroupContentSize(track, frameLen, |tail|));
    var start := BlockStart(track, rel, frameLen);
    && parts == BlockGroupParts(|outer| + CRC_ELEMENT_LEN + |start|, |tail|, |outer| + 2)
    && Stored(s0, mid, at, outer + HOLE + start)
    && Stored(mid, s1, at + parts.beforeFrameLen + frameLen, tail)
  }

  lemma GroupStartLength(track: nat, rel: i16, frameLen: nat, tailLen: nat)
    ensures var content := GroupContentSize(track, frameLen, tailLen);
            var outer := Head(BLOCK_GROUP_ID, content);
            |outer| + CRC_ELEMENT_LEN + |BlockStart(track, rel, frameLen)| + frameLen + tailLen == 1
                + VintSize(content) + content
  {
    hide VintSize, Head, IdSize, BlockStart;
    IdOctets();
  }

  method BuildSimpleBlock(out: array<byte>, at: nat, track: nat, rel: i16, dataLen: nat) returns (n: nat)
    requires track < SIZE_LIMIT && SimpleBlockSize(track, dataLen) < SIZE_LIMIT
    requires at + SimpleBlockSize(track, dataLen) <= out.Length
    modifies out
    ensures n + dataLen == SimpleBlockSize(track, dataLen) && n == |SimpleStart(track, rel, dataLen)|
    ensures Stored(old(out[..]), out[..], at, SimpleStart(track, rel, dataLen))
  {
    hide VintSize, Head, BlockHead, Stored, IdSize;
    IdOctets();
    n := WriteMasterHead(SIMPLE_BLOCK_ID, VintSize(track) + 3 + dataLen, out, at);
    ghost var s1 := out[..];
    var m := WriteBlockHead(out, at + n, track, rel, KEYFRAME);
    StoredThen(old(out[..]), s1, out[..], at, Head(SIMPLE_BLOCK_ID, VintSize(track) + 3 + dataLen),
               BlockHead(track, rel, KEYFRAME));
    n := n + m;
  }

  /** The simple block up to its data. */
  function SimpleStart(track: nat, rel: i16, dataLen: nat): seq<byte>
  {
    Head(SIMPLE_BLOCK_ID, VintSize(track) + 3 + dataLen) + BlockHead(track, rel, KEYFRAME)
  }
}
