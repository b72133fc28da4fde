/** Reading blocks as a player does, and that every block written reads back as what it was made from. */
module BlockRead {
  import opened Bytes
  import opened Ebml
  import opened EbmlRead
  import opened Crc
  import opened ChapterRead
  import opened Blocks
  import opened Ranges

  // ---- the reader: sections 5.1.3.4, 5.1.3.5 and 10 of RFC 9559, with the IDs of its tables

  /** Track number, time relative to the cluster, flags, and the frame. */
  datatype Head = Head(track: nat, rel: int, flags: byte, frame: seq<byte>)

  function ReadHead(b: seq<byte>): Option<Head>
  {
    match ReadSize(b)
    case None => None
    case Some((track, n, _)) =>
      if n + 3 > |b| then None else Some(Head(track, SignedValue(b[n..n + 2]), b[n + 2], b[n + 3..]))
  }

  /** A block on its own, or with what its group says about it; `sound` if the group's checksum is right. */
  datatype Packet =
    | Simple(head: Head)
    | Grouped(head: Head, duration: Option<nat>, reference: Option<int>, discard: Option<int>, sound: bool)

  function Unsigned(s: Option<seq<byte>>): Option<nat> { match s case Some(v) => Some(BeValue(v)) case None => None }

  function Signed(s: Option<seq<byte>>): Option<int> { match s case Some(v) => Some(SignedValue(v)) case None => None }

  /** The element starts with a checksum, four octets that with everything behind them leave the known residue. */
  ghost predicate Checked(content: seq<byte>)
  {
    match ReadElement(content)
    case Some((e, body)) => e.id == 0xBF && |e.content| == 4 && Holds(Update(INIT, body + e.content), 0xDEBB_20E3)
    case None => false
  }

  ghost function ReadPacket(e: Element): Option<Packet>
  {
    if e.id == 0xA3 then
      match ReadHead(e.content) case Some(h) => Some(Simple(h)) case None => None
    else if e.id == 0xA0 then
      var kids := Children(e.content);
      match FirstOf(kids, 0xA1)
      case None => None
      case Some(block) =>
        match ReadHead(block)
        case None => None
        case Some(h) =>
          Some(Grouped(h, Unsigned(FirstOf(kids, 0x9B)), Signed(FirstOf(kids, 0xFB)), Signed(FirstOf(kids, 0x75A2)),
                       Checked(e.content)))
    else None
  }

  /** The packets among a cluster's children, in order. */
  ghost function ReadPackets(kids: seq<Element>): seq<Packet>
  {
    if |kids| == 0 then []
    else (match ReadPacket(kids[0]) case Some(p) => [p] case None => []) + ReadPackets(kids[1..])
  }

  // ---- one block

  lemma HeadBack(track: nat, rel: i16, flags: byte, frame: seq<byte>)
    requires track < SIZE_LIMIT
    ensures ReadHead(BlockHead(track, rel, flags) + frame) == Some(Head(track, rel, flags, frame))
  {
    hide VintSize, SignedBytes, SignedValue, ReadSize, Pow2;
    var n := VintSize(track);
    var b := BlockHead(track, rel, flags) + frame;
    assert b == Vint(track) + (SignedBytes(rel, 2) + [flags] + frame);
    ReadSizeBack(track, SignedBytes(rel, 2) + [flags] + frame);
    assert b[n..n + 2] == SignedBytes(rel, 2) && b[n + 2] == flags && b[n + 3..] == frame;
    TwoOctets(rel);
  }

  lemma TwoOctets(rel: i16)
    ensures SignedValue(SignedBytes(rel, 2)) == rel
  {
    hide SignedBytes, SignedValue;
    assert Pow2(8) == 256;
    Pow2Add(8, 7);
    assert Pow2(7) == 128;
    SignedRoundTrip(rel, 2);
  }

  lemma BlockIds()
    ensures IsId(BLOCK_GROUP_ID) && IsId(BLOCK_ID) && IsId(SIMPLE_BLOCK_ID) && IsId(BLOCK_DURATION)
    ensures IsId(REFERENCE_BLOCK) && IsId(DISCARD_PADDING) && IsId(CRC_ID)
  {}

  lemma NothingMore(x: seq<byte>)
    ensures x + [] == x && Children([]) == []
  {
    hide ReadElement;
    NoElement();
  }

  /** A sealed body is checked. */
  lemma SealedChecked(body: seq<byte>)
    ensures Checked(CrcElem(Crc32(body)) + body)
  {
    hide Holds, Update, LeBytes, Crc32, Elem, ReadElement;
    var v := LeBytes(Crc32(body));
    CrcIsElem(Crc32(body));
    BlockIds();
    ReadElementBack(CRC_ID, v, body);
    ResidueLaw(body);
  }

  /** A simple block reads as its head and frame. */
  lemma SimpleBack(track: nat, rel: i16, data: seq<byte>, rest: seq<byte>)
    requires track < SIZE_LIMIT && |SimpleBlock(track, rel, data)| < SIZE_LIMIT
    ensures ReadPackets(Children(SimpleBlock(track, rel, data) + rest))
         == [Simple(Head(track, rel, 0x80, data))] + ReadPackets(Children(rest))
  {
    hide Elem, Children, ReadHead, BlockHead, VintSize;
    var content := BlockHead(track, rel, KEYFRAME) + data;
    ElemLonger(SIMPLE_BLOCK_ID, content);
    BlockIds();
    ChildrenBack(SIMPLE_BLOCK_ID, content, rest);
    HeadBack(track, rel, KEYFRAME, data);
    OnePacket(Element(SIMPLE_BLOCK_ID, content), Children(rest));
  }

  lemma OnePacket(e: Element, kids: seq<Element>)
    requires ReadPacket(e).Some?
    ensures ReadPackets([e] + kids) == [ReadPacket(e).value] + ReadPackets(kids)
  {
    hide ReadPacket;
    assert ([e] + kids)[1..] == kids;
  }

  /** A group reads as its block and the children of its tail. */
  lemma GroupBack(track: nat, rel: i16, frame: seq<byte>, tail: seq<byte>, more: seq<Element>, rest: seq<byte>)
    requires track < SIZE_LIMIT && |Group(track, rel, frame, tail)| < SIZE_LIMIT && Children(tail) == more
    requires FirstOf(more, 0xA1) == None
    ensures ReadPackets(Children(Group(track, rel, frame, tail) + rest))
         == [Grouped(Head(track, rel, 0, frame), Unsigned(FirstOf(more, 0x9B)), Signed(FirstOf(more, 0xFB)),
                     Signed(FirstOf(more, 0x75A2)), true)]
            + ReadPackets(Children(rest))
  {
    hide Elem, Children, ReadHead, BlockHead, VintSize, Crc32, CrcElem, LeBytes, Unsigned, Signed, Checked;
    var body := GroupBody(track, rel, frame, tail);
    var content := CrcElem(Crc32(body)) + body;
    var block := BlockHead(track, rel, BLOCK_FLAGS) + frame;
    ElemLonger(BLOCK_GROUP_ID, content);
    ElemLonger(BLOCK_ID, block);
    BlockIds();
    ChildrenBack(BLOCK_GROUP_ID, content, rest);
    CrcIsElem(Crc32(body));
    ChildrenBack(CRC_ID, LeBytes(Crc32(body)), body);
    ChildrenBack(BLOCK_ID, block, tail);
    HeadBack(track, rel, BLOCK_FLAGS, frame);
    SealedChecked(body);
    var kids := Children(content);
    assert kids == [Element(CRC_ID, LeBytes(Crc32(body))), Element(BLOCK_ID, block)] + more;
    KidsFound(Element(CRC_ID, LeBytes(Crc32(body))), Element(BLOCK_ID, block), more);
    OnePacket(Element(BLOCK_GROUP_ID, content), Children(rest));
  }

  lemma KidsFound(a: Element, b: Element, more: seq<Element>)
    requires a.id == 0xBF && b.id == 0xA1
    ensures var kids := [a, b] + more;
            && FirstOf(kids, 0xA1) == Some(b.content) && FirstOf(kids, 0x9B) == FirstOf(more, 0x9B)
            && FirstOf(kids, 0xFB) == FirstOf(more, 0xFB) && FirstOf(kids, 0x75A2) == FirstOf(more, 0x75A2)
  {
    var kids := [a, b] + more;
    assert kids[1..] == [b] + more && kids[1..][1..] == more;
  }

  // ---- tails

  lemma SintBack(id: nat, v: i64, rest: seq<byte>)
    requires IsId(id)
    ensures Children(SintElem(id, v) + rest) == [Element(id, SignedBytes(v, SintSize(v)))] + Children(rest)
  {
    hide Elem, SignedBytes, SintSize, Children;
    SintSizeRange(v);
    ChildrenBack(id, SignedBytes(v, SintSize(v)), rest);
  }

  lemma UintBack(id: nat, v: u64, rest: seq<byte>)
    requires IsId(id)
    ensures Children(UintElem(id, v) + rest) == [Element(id, BeBytes(v, UintSize(v)))] + Children(rest)
  {
    hide Elem, BeBytes, UintSize, Children;
    UintSizeRange(v);
    ChildrenBack(id, BeBytes(v, UintSize(v)), rest);
  }

  lemma FoundOne(e: Element, id: nat)
    ensures FirstOf([e], id) == if e.id == id then Some(e.content) else None
  {
    assert [e][1..] == [];
  }

  lemma FoundTwo(e: Element, f: Element, id: nat)
    ensures FirstOf([e, f], id) == if e.id == id then Some(e.content) else if f.id == id then Some(f.content) else None
  {
    assert [e, f][1..] == [f];
    FoundOne(f, id);
  }

  lemma UnsignedBack(v: u64)
    ensures Unsigned(Some(BeBytes(v, UintSize(v)))) == Some(v as nat)
  {
    hide BeBytes, UintSize, BeValue;
    UintRoundTrip(v);
  }

  lemma SignedBack(v: i64)
    ensures Signed(Some(SignedBytes(v, SintSize(v)))) == Some(v as int)
  {
    hide SignedBytes, SintSize, SignedValue;
    SintRoundTrip(v);
  }

  /** A block group reads as its head, frame and duration, with a reference unless it is a keyframe. */
  lemma BlockGroupBack(track: nat, rel: i16, frame: seq<byte>, isKeyframe: bool, duration: u64, rest: seq<byte>)
    requires track < SIZE_LIMIT && |BlockGroup(track, rel, frame, isKeyframe, duration)| < SIZE_LIMIT
    ensures ReadPackets(Children(BlockGroup(track, rel, frame, isKeyframe, duration) + rest))
         == [Grouped(Head(track, rel, 0, frame), Some(duration as nat), if isKeyframe then None
                     else Some(0 - rel), None,
                     true)]
            + ReadPackets(Children(rest))
  {
    hide Group, Children, SintElem, UintElem, BeBytes, UintSize, SignedBytes, SintSize, FirstOf, Unsigned, Signed;
    var d := Element(BLOCK_DURATION, BeBytes(duration, UintSize(duration)));
    BlockIds();
    UnsignedBack(duration);
    if isKeyframe {
      NothingMore(UintElem(BLOCK_DURATION, duration));
      UintBack(BLOCK_DURATION, duration, []);
      FoundOne(d, 0xA1); FoundOne(d, 0x9B); FoundOne(d, 0xFB); FoundOne(d, 0x75A2);
      NoSigned();
      GroupBack(track, rel, frame, GroupTail(rel, isKeyframe, duration), [d], rest);
    } else {
      var r := Element(REFERENCE_BLOCK, SignedBytes(0 - rel, SintSize(0 - rel)));
      var tail := SintElem(REFERENCE_BLOCK, 0 - rel);
      UintBack(BLOCK_DURATION, duration, tail);
      NothingMore(tail);
      SintBack(REFERENCE_BLOCK, 0 - rel, []);
      FoundTwo(d, r, 0xA1); FoundTwo(d, r, 0x9B); FoundTwo(d, r, 0xFB); FoundTwo(d, r, 0x75A2);
      NoSigned();
      SignedBack(0 - rel);
      assert [d] + [r] == [d, r];
      GroupBack(track, rel, frame, GroupTail(rel, isKeyframe, duration), [d, r], rest);
    }
  }

  lemma NoSigned()
    ensures Signed(None) == None && Unsigned(None) == None
  {}

  /** A padded group reads as its head and frame and the time to discard. */
  lemma PadGroupBack(track: nat, rel: i16, frame: seq<byte>, pad: i64, rest: seq<byte>)
    requires track < SIZE_LIMIT && |PadGroup(track, rel, frame, pad)| < SIZE_LIMIT
    ensures ReadPackets(Children(PadGroup(track, rel, frame, pad) + rest))
         == [Grouped(Head(track, rel, 0, frame), None, None, Some(pad as int), true)] + ReadPackets(Children(rest))
  {
    hide Group, Children, SintElem, SignedBytes, SintSize, FirstOf, Unsigned, Signed;
    var p := Element(DISCARD_PADDING, SignedBytes(pad, SintSize(pad)));
    BlockIds();
    NothingMore(PadTail(pad));
    SintBack(DISCARD_PADDING, pad, []);
    FoundOne(p, 0xA1); FoundOne(p, 0x9B); FoundOne(p, 0xFB); FoundOne(p, 0x75A2);
    NoSigned();
    SignedBack(pad);
    GroupBack(track, rel, frame, PadTail(pad), [p], rest);
  }

  // ---- the units of a frame

  /** Length-prefixed units, as a decoder of such a frame splits them. */
  function SplitFrame(d: seq<byte>): seq<seq<byte>>
    decreases |d|
  {
    if |d| < 4 then []
    else
      var n := ((d[0] as int * 256 + d[1] as int) * 256 + d[2] as int) * 256 + d[3] as int;
      if 4 + n > |d| then [] else [d[4..4 + n]] + SplitFrame(d[4 + n..])
  }

  lemma FourOctets(n: nat)
    requires n < U32_LIMIT
    ensures var l := BeBytes(n, 4);
            ((l[0] as int * 256 + l[1] as int) * 256 + l[2] as int) * 256 + l[3] as int == n
  {
    var a, b, c := n / 256, n / 256 / 256, n / 256 / 256 / 256;
    assert BeBytes(n, 4) == BeBytes(a, 3) + [n % 256];
    assert BeBytes(a, 3) == BeBytes(b, 2) + [a % 256];
    assert BeBytes(b, 2) == BeBytes(c, 1) + [b % 256];
    assert BeBytes(c, 1) == BeBytes(c / 256, 0) + [c % 256];
  }

  lemma {:induction false} SplitConcat(nals: seq<ByteRange>, src: seq<byte>, rest: seq<byte>)
    requires forall r :: r in nals ==> InRange(r, src) && r.len < U32_LIMIT
    ensures SplitFrame(NalBytes(nals, src) + rest)
         == seq(|nals|, i requires 0 <= i < |nals| => Slice(nals[i], src)) + SplitFrame(rest)
    decreases nals
  {
    hide BeBytes, SplitFrame, Slice;
    if |nals| == 0 {
      assert NalBytes(nals, src) + rest == rest;
    } else {
      var n := |nals| - 1;
      var r := nals[n];
      assert r in nals;
      var one := BeBytes(r.len, 4) + Slice(r, src) + rest;
      assert NalBytes(nals, src) + rest == NalBytes(nals[..n], src) + one;
      SplitConcat(nals[..n], src, one);
      SplitOne(r.len, Slice(r, src), rest);
    }
  }

  lemma SplitOne(n: nat, nal: seq<byte>, rest: seq<byte>)
    requires n == |nal| < U32_LIMIT
    ensures SplitFrame(BeBytes(n, 4) + nal + rest) == [nal] + SplitFrame(rest)
  {
    hide BeBytes;
    FourOctets(n);
    var d := BeBytes(n, 4) + nal + rest;
    assert d[4..4 + n] == nal && d[4 + n..] == rest;
    assert forall k :: 0 <= k < 4 ==> d[k] == BeBytes(n, 4)[k];
  }

  /** A frame gathered from units shorter than 2^32 splits into exactly those units. */
  lemma FrameBack(nals: seq<ByteRange>, src: seq<byte>)
    requires forall r :: r in nals ==> InRange(r, src) && r.len < U32_LIMIT
    ensures SplitFrame(NalBytes(nals, src)) == seq(|nals|, i requires 0 <= i < |nals| => Slice(nals[i], src))
  {
    SplitConcat(nals, src, []);
    assert NalBytes(nals, src) + [] == NalBytes(nals, src);
  }
}
