/**
 * Reading a built cluster back: its time and place, and every packet with its time, track, data and
 * what is said about it.
 */
module ClusterRead {
  import opened Bytes
  import opened Ebml
  import opened EbmlRead
  import opened Crc
  import opened ChapterRead
  import opened Ranges
  import opened Timestamps
  import opened ClusterPlans
  import opened Blocks
  import opened BlockRead
  import opened ClusterBuild
  import opened ClusterOrder
  import opened Headers
  import Indexes
  import Schedules

  /** What a player knows of a cluster: section 5.1.3 of RFC 9559. */
  datatype Cluster = Cluster(time: Option<nat>, position: Option<nat>, prevSize: Option<nat>, packets: seq<Packet>,
                             sound: bool)

  ghost function ReadCluster(content: seq<byte>): Cluster
  {
    var kids := Children(content);
    Cluster(Unsigned(FirstOf(kids, 0xE7)), Unsigned(FirstOf(kids, 0xA7)), Unsigned(FirstOf(kids, 0xAB)),
            ReadPackets(kids), Checked(content))
  }

  // ---- what each packet has to say

  /** Where frame `i` stands in the table of times: at its display rank, if the codec reorders. */
  function Shown(s: Source, i: nat): nat
    requires s.isNal ==> i < |s.disp|
  {
    s.plan.baseFrame + if s.isNal then s.disp[i] else i
  }

  /**
   * The packet of each scheduled item. A frame is of track 1, has the time to the next one as its
   * duration, and refers to the one shown as far back as it is late unless it is the first; an audio
   * packet is a keyframe on its own or has its pad; a subtitle has its duration.
   */
  ghost function Told(s: Source, item: Schedules.Item): Packet
    requires SourceOk(s) && Schedules.Within(InputsOf(s), item)
  {
    var ts := s.plan.ts;
    match item
    case Video(i) =>
      ShownIn(s, i);
      var f := Shown(s, i);
      var rel := WrapI16(s.pts[f] - ts);
      Grouped(Head(1, rel, 0, FrameData(s, i)), Some((s.pts[f + 1] - s.pts[f]) as nat),
              if i == 0 then None else Some(0 - rel), None, true)
    case Audio(t, i) =>
      var a := s.audio[t];
      var head := Head(a.number, WrapI16(a.tsMs[i] - ts), 0, Slice(a.packets[i], a.data));
      (match PadAt(a.pads, i)
       case Some(ns) => Grouped(head, None, None, Some(ns as int), true)
       case None => Simple(head.(flags := 0x80)))
    case Sub(t, i) =>
      var u := s.subs[t];
      Grouped(Head(u.number, WrapI16(u.tsMs[i] - ts), 0, Slice(u.packets[i], u.data)), Some(u.durMs[i] as nat), None,
              None,
              true)
  }

  lemma ShownIn(s: Source, i: nat)
    requires SourceOk(s) && i < |s.blocks|
    ensures s.isNal ==> i < |s.disp|
    ensures Shown(s, i) + 1 < |s.pts| && s.pts[Shown(s, i)] <= s.pts[Shown(s, i) + 1] && FrameOk(s, i)
  {
    hide FrameOk;
  }

  ghost function ToldAll(s: Source, items: seq<Schedules.Item>): (p: seq<Packet>)
    requires SourceOk(s) && AllWithin(s, items)
    ensures |p| == |items|
  {
    seq(|items|, k requires 0 <= k < |items| => Told(s, items[k]))
  }

  // ---- packets

  lemma VideoBack(s: Source, i: nat, rest: seq<byte>)
    requires SourceOk(s) && Schedules.Within(InputsOf(s), Schedules.Video(i)) && |VideoBlock(s, i)| < SIZE_LIMIT
    ensures ReadPackets(Children(VideoBlock(s, i) + rest))
         == [Told(s, Schedules.Video(i))] + ReadPackets(Children(rest))
  {
    hide BlockGroup, Children, ReadPackets, FrameData, FrameOk;
    ShownIn(s, i);
    VideoFits(s, i);
    var f := Shown(s, i);
    var rel: i16, dur: u64 := WrapI16(s.pts[f] - s.plan.ts), s.pts[f + 1] - s.pts[f];
    assert BlockTiming(s, i) == (rel, dur);
    BlockGroupBack(1, rel, FrameData(s, i), i == 0, dur, rest);
  }

  lemma AudioBack(s: Source, t: nat, i: nat, rest: seq<byte>)
    requires SourceOk(s) && Schedules.Within(InputsOf(s), Schedules.Audio(t, i))
    requires |AudioBlock(s.audio[t], s.plan.ts, i)| < SIZE_LIMIT
    ensures ReadPackets(Children(AudioBlock(s.audio[t], s.plan.ts, i) + rest))
         == [Told(s, Schedules.Audio(t, i))] + ReadPackets(Children(rest))
  {
    hide SimpleBlock, PadGroup, Children, ReadPackets, PadAt, Slice, VideoOk;
    var a := s.audio[t];
    var rel, data := WrapI16(a.tsMs[i] - s.plan.ts), Slice(a.packets[i], a.data);
    match PadAt(a.pads, i)
    case Some(ns) => PadGroupBack(a.number, rel, data, ns, rest);
    case None => SimpleBack(a.number, rel, data, rest);
  }

  lemma SubBack(s: Source, t: nat, i: nat, rest: seq<byte>)
    requires SourceOk(s) && Schedules.Within(InputsOf(s), Schedules.Sub(t, i))
    requires |SubBlock(s.subs[t], s.plan.ts, i)| < SIZE_LIMIT
    ensures ReadPackets(Children(SubBlock(s.subs[t], s.plan.ts, i) + rest))
         == [Told(s, Schedules.Sub(t, i))] + ReadPackets(Children(rest))
  {
    hide BlockGroup, Children, ReadPackets, Slice, VideoOk;
    var u := s.subs[t];
    BlockGroupBack(u.number, WrapI16(u.tsMs[i] - s.plan.ts), Slice(u.packets[i], u.data), true, u.durMs[i], rest);
  }

  lemma ItemBack(s: Source, item: Schedules.Item, rest: seq<byte>)
    requires SourceOk(s) && Schedules.Within(InputsOf(s), item) && |ItemBlock(s, item)| < SIZE_LIMIT
    ensures ReadPackets(Children(ItemBlock(s, item) + rest)) == [Told(s, item)] + ReadPackets(Children(rest))
  {
    hide VideoBlock, AudioBlock, SubBlock, Children, ReadPackets, Told, SourceOk;
    match item
    case Video(i) => VideoBack(s, i, rest);
    case Audio(t, i) => AudioBack(s, t, i, rest);
    case Sub(t, i) => SubBack(s, t, i, rest);
  }

  /** Written packets read back in order. */
  lemma {:induction false} ItemsBack(s: Source, items: seq<Schedules.Item>, rest: seq<byte>)
    requires SourceOk(s) && AllWithin(s, items) && |ItemsBytes(s, items)| < SIZE_LIMIT
    ensures ReadPackets(Children(ItemsBytes(s, items) + rest)) == ToldAll(s, items) + ReadPackets(Children(rest))
    decreases items
  {
    hide ItemBlock, Children, ReadPackets, Told, SourceOk, Schedules.Within, InputsOf;
    if |items| == 0 {
      assert ItemsBytes(s, items) + rest == rest;
    } else {
      var n := |items| - 1;
      var last := ItemBlock(s, items[n]) + rest;
      assert ItemsBytes(s, items) + rest == ItemsBytes(s, items[..n]) + last;
      ItemsBack(s, items[..n], last);
      ItemBack(s, items[n], rest);
      assert ToldAll(s, items) == ToldAll(s, items[..n]) + [Told(s, items[n])];
    }
  }

  // ---- the cluster

  lemma FieldIds()
    ensures IsId(TIMESTAMP_ID) && IsId(POSITION_ID) && IsId(PREV_SIZE_ID) && IsId(CRC_ID)
  {}

  lemma NoPacket(e: Element, kids: seq<Element>)
    requires e.id != 0xA0 && e.id != 0xA3
    ensures ReadPackets([e] + kids) == ReadPackets(kids)
  {
    assert ([e] + kids)[1..] == kids;
  }

  lemma Found(e: Element, kids: seq<Element>, id: nat)
    ensures FirstOf([e] + kids, id) == if e.id == id then Some(e.content) else FirstOf(kids, id)
  {
    assert ([e] + kids)[1..] == kids;
  }

  /** No packet reads as a field of the cluster. */
  lemma {:induction false} ItemsNoField(s: Source, items: seq<Schedules.Item>, rest: seq<byte>, id: nat)
    requires SourceOk(s) && AllWithin(s, items) && |ItemsBytes(s, items)| < SIZE_LIMIT && id != 0xA0 && id != 0xA3
    ensures FirstOf(Children(ItemsBytes(s, items) + rest), id) == FirstOf(Children(rest), id)
    decreases items
  {
    hide ItemBlock, Children, SourceOk, Schedules.Within, InputsOf;
    if |items| == 0 {
      assert ItemsBytes(s, items) + rest == rest;
    } else {
      var n := |items| - 1;
      var last := ItemBlock(s, items[n]) + rest;
      assert ItemsBytes(s, items) + rest == ItemsBytes(s, items[..n]) + last;
      ItemsNoField(s, items[..n], last, id);
      var e := ItemElement(s, items[n]);
      ChildrenBack(e.id, e.content, rest);
      Found(e, Children(rest), id);
    }
  }

  lemma ItemElement(s: Source, item: Schedules.Item) returns (e: Element)
    requires SourceOk(s) && Schedules.Within(InputsOf(s), item) && |ItemBlock(s, item)| < SIZE_LIMIT
    ensures ItemBlock(s, item) == Elem(e.id, e.content) && (e.id == 0xA0 || e.id == 0xA3) && IsId(e.id)
            && |e.content| < SIZE_LIMIT
  {
    hide Elem, BlockHead, FrameData, FrameOk, Crc32, CrcElem, GroupBody, GroupTail, PadTail;
    match item
    case Video(i) =>
      ShownIn(s, i);
      var (rel, dur) := BlockTiming(s, i);
      var body := GroupBody(1, rel, FrameData(s, i), GroupTail(rel, i == 0, dur));
      e := Element(BLOCK_GROUP_ID, CrcElem(Crc32(body)) + body);
      ElemLonger(e.id, e.content);
    case Audio(t, i) =>
      var a := s.audio[t];
      e := AudioElement(a, s.plan.ts, i);
    case Sub(t, i) =>
      var u := s.subs[t];
      var rel, data := WrapI16(u.tsMs[i] - s.plan.ts), Slice(u.packets[i], u.data);
      var body := GroupBody(u.number, rel, data, GroupTail(rel, true, u.durMs[i]));
      e := Element(BLOCK_GROUP_ID, CrcElem(Crc32(body)) + body);
      ElemLonger(e.id, e.content);
  }

  lemma AudioElement(a: AudioTrack, ts: u64, i: nat) returns (e: Element)
    requires i < |a.packets| == |a.tsMs| && InRange(a.packets[i], a.data) && |AudioBlock(a, ts, i)| < SIZE_LIMIT
    ensures AudioBlock(a, ts, i) == Elem(e.id, e.content) && (e.id == 0xA0 || e.id == 0xA3) && IsId(e.id)
            && |e.content| < SIZE_LIMIT
  {
    hide Elem, BlockHead, Crc32, CrcElem, GroupBody, PadTail;
    var rel, data := WrapI16(a.tsMs[i] - ts), Slice(a.packets[i], a.data);
    match PadAt(a.pads, i)
    case Some(ns) =>
      var body := GroupBody(a.number, rel, data, PadTail(ns));
      e := Element(BLOCK_GROUP_ID, CrcElem(Crc32(body)) + body);
      ElemLonger(e.id, e.content);
    case None =>
      e := Element(SIMPLE_BLOCK_ID, BlockHead(a.number, rel, KEYFRAME) + data);
      ElemLonger(e.id, e.content);
  }

  /** Fields in front of blocks that hold none of them. */
  lemma FieldsBack(ts: u64, position: nat, posWidth: nat, prevSize: nat, blocks: seq<byte>)
    requires posWidth <= 8 && prevSize < U64_LIMIT && BeValue(BeBytes(position, posWidth)) == position
    requires forall id :: id in {0xE7, 0xA7, 0xAB} ==> FirstOf(Children(blocks), id) == None
    ensures var kids := Children(ClusterFields(ts, position, posWidth, prevSize) + blocks);
            && Unsigned(FirstOf(kids, 0xE7)) == Some(ts as nat) && Unsigned(FirstOf(kids, 0xA7)) == Some(position)
            && Unsigned(FirstOf(kids, 0xAB)) == (if prevSize > 0 then Some(prevSize) else None)
            && ReadPackets(kids) == ReadPackets(Children(blocks))
  {
    hide Children, Elem, BeBytes, BeValue, UintSize, FirstOf, ReadPackets, UintElem, IsId;
    FieldIds();
    var p := PrevElem(prevSize);
    var place := BeBytes(position, posWidth);
    PrevBack(prevSize, blocks);
    ChildrenBack(POSITION_ID, place, p + blocks);
    BlockRead.UintBack(TIMESTAMP_ID, ts, Elem(POSITION_ID, place) + (p + blocks));
    assert ClusterFields(ts, position, posWidth, prevSize) + blocks
        == UintElem(TIMESTAMP_ID, ts) + (Elem(POSITION_ID, place) + (p + blocks));
    var e, f := Element(TIMESTAMP_ID, BeBytes(ts, UintSize(ts))), Element(POSITION_ID, place);
    var more := Children(p + blocks);
    Found(e, [f] + more, 0xE7); Found(e, [f] + more, 0xA7); Found(e, [f] + more, 0xAB);
    Found(f, more, 0xA7); Found(f, more, 0xAB);
    NoPacket(e, [f] + more);
    NoPacket(f, more);
    UnsignedBack(ts);
  }

  lemma PrevBack(prevSize: nat, blocks: seq<byte>)
    requires prevSize < U64_LIMIT && FirstOf(Children(blocks), 0xAB) == None
    ensures var kids := Children(PrevElem(prevSize) + blocks);
            && Unsigned(FirstOf(kids, 0xAB)) == (if prevSize > 0 then Some(prevSize) else None)
            && ReadPackets(kids) == ReadPackets(Children(blocks))
  {
    hide Children, Elem, BeBytes, BeValue, UintSize, FirstOf, ReadPackets, UintElem, IsId;
    FieldIds();
    if prevSize > 0 {
      BlockRead.UintBack(PREV_SIZE_ID, prevSize, blocks);
      var e := Element(PREV_SIZE_ID, BeBytes(prevSize, UintSize(prevSize)));
      Found(e, Children(blocks), 0xAB);
      NoPacket(e, Children(blocks));
      UnsignedBack(prevSize);
    } else {
      assert PrevElem(prevSize) + blocks == blocks;
    }
  }

  /**
   * A built cluster reads back as its plan's time, Position and PrevSize and, in the order scheduled, the
   * packet of every item, all checksums right.
   */
  lemma ClusterBack(s: Source, posWidth: nat)
    requires SourceOk(s) && Schedules.Timed(InputsOf(s)) && posWidth <= 8 && s.plan.prevSize < U64_LIMIT
    requires |BlocksBytes(s)| < SIZE_LIMIT && BeValue(BeBytes(s.plan.position, posWidth)) == s.plan.position
    ensures AllWithin(s, Scheduled(s))
    ensures ReadCluster(Indexes.ClusterContent(s.plan, posWidth, BlocksBytes(s)))
         == Cluster(Some(s.plan.ts as nat), Some(s.plan.position), if s.plan.prevSize > 0 then Some(s.plan.prevSize)
                    else None,
                    ToldAll(s, Scheduled(s)), true)
  {
    hide *;
    var items := Scheduled(s);
    BlocksAreItems(s);
    EmptyRead(BlocksBytes(s));
    ItemsBack(s, items, []);
    forall id | id in {0xE7, 0xA7, 0xAB} ensures FirstOf(Children(BlocksBytes(s)), id) == None {
      ItemsNoField(s, items, [], id);
    }
    var fields := ClusterFields(s.plan.ts, s.plan.position, posWidth, s.plan.prevSize);
    FieldsBack(s.plan.ts, s.plan.position, posWidth, s.plan.prevSize, BlocksBytes(s));
    ContentBack(s.plan, posWidth, BlocksBytes(s));
    assert ToldAll(s, items) + [] == ToldAll(s, items);
  }

  lemma BlocksAreItems(s: Source)
    requires SourceOk(s)
    ensures AllWithin(s, Scheduled(s)) && BlocksBytes(s) == ItemsBytes(s, Scheduled(s))
  {
    hide SourceOk, ItemsBytes, InputsOf, AllWithin, Schedules.Schedule;
    Schedulable(s);
    ScheduleWithin(s, Schedules.Begin(InputsOf(s)));
  }

  lemma Schedulable(s: Source)
    requires SourceOk(s)
    ensures Schedules.Ok(InputsOf(s), Schedules.Begin(InputsOf(s)))
  {
    hide VideoOk, AscendingPads;
  }

  lemma EmptyRead(blocks: seq<byte>)
    ensures blocks + [] == blocks && Children([]) == [] && ReadPackets([]) == []
    ensures forall id :: FirstOf([], id) == None
  {
    NothingMore(blocks);
  }

  lemma ContentBack(plan: ClusterPlan, posWidth: nat, blocks: seq<byte>)
    ensures var body := ClusterFields(plan.ts, plan.position, posWidth, plan.prevSize) + blocks;
            var kids := Children(body);
            ReadCluster(Indexes.ClusterContent(plan, posWidth, blocks))
            == Cluster(Unsigned(FirstOf(kids, 0xE7)), Unsigned(FirstOf(kids, 0xA7)), Unsigned(FirstOf(kids, 0xAB)),
                       ReadPackets(kids), true)
  {
    hide Children, FirstOf, ReadPackets, ClusterFields, Checked, Unsigned, LeBytes, Crc32, CrcElem;
    var body := ClusterFields(plan.ts, plan.position, posWidth, plan.prevSize) + blocks;
    Indexes.SealedBack(body);
    SealedChecked(body);
    var e := Element(CRC_ID, LeBytes(Crc32(body)));
    var kids := Children(body);
    Found(e, kids, 0xE7); Found(e, kids, 0xA7); Found(e, kids, 0xAB);
    NoPacket(e, kids);
  }

  // ---- times

  /** The time a player gives a packet is the track's own exactly when that is within sixteen bits of the cluster's. */
  lemma TimesBack(s: Source, item: Schedules.Item)
    requires SourceOk(s) && Schedules.Within(InputsOf(s), item)
    ensures item.Video? ==> item.i < |s.blocks| && (s.isNal ==> item.i < |s.disp|) && Shown(s, item.i) < |s.pts|
    ensures item.Audio? ==> item.t < |s.audio| && item.i < |s.audio[item.t].tsMs|
    ensures item.Sub? ==> item.t < |s.subs| && item.i < |s.subs[item.t].tsMs|
    ensures var own: int := match item
                            case Video(i) => s.pts[Shown(s, i)]
                            case Audio(t, i) => s.audio[t].tsMs[i]
                            case Sub(t, i) => s.subs[t].tsMs[i];
            s.plan.ts as int + Told(s, item).head.rel == own <==> -0x8000 <= own - s.plan.ts < 0x8000
  {
    hide FrameData, FrameOk, Slice, PadAt;
    if item.Video? { ShownIn(s, item.i); }
  }
}
