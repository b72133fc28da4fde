/** Writing the header elements into a buffer sized by the layout. */
module HeaderWrite {
  import opened Bytes
  import opened Ebml
  import opened Crc
  import opened Chapters
  import opened Blocks
  import opened ClusterPlans
  import opened Layouts
  import opened Headers

  // ---- SeekHead

  lemma SeekEntryFacts(target: nat, position: nat)
    requires IdSize(target) == 4 && position < U64_LIMIT
    ensures var content := ElemSize(SEEK_ID, 4) + UintElemSize(SEEK_POSITION, position);
            && content < SIZE_LIMIT && 4 < SIZE_LIMIT && |SeekContent(target, position)| == content
            && |Id(target)| == 4 && |UintElem(SEEK_POSITION, position)| == UintElemSize(SEEK_POSITION, position)
            && SeekEntry(target, position) == Head(SEEK_MASTER_ID, content)
               + (Elem(SEEK_ID, Id(target)) + UintElem(SEEK_POSITION, position))
            && SeekEntrySize(position) == IdSize(SEEK_MASTER_ID) + VintSize(content) + content
            && IdSize(SEEK_MASTER_ID) <= 4
  {
    hide IdSize, UintElem, VintSize, UintSize, Head, Id;
    SeekEntryLength(target, position);
    UintElemLen(SEEK_POSITION, position);
    UintSizeRange(position);
    VintSizeRange(4);
    EbmlRead.IdBits(SEEK_ID);
    EbmlRead.IdBits(SEEK_POSITION);
    EbmlRead.IdBits(SEEK_MASTER_ID);
  }

  method WriteSeekEntry(out: array<byte>, at: nat, target: nat, position: nat) returns (n: nat)
    requires IdSize(target) == 4 && position < U64_LIMIT && at + SeekEntrySize(position) <= out.Length
    modifies out
    ensures n == SeekEntrySize(position) && Stored(old(out[..]), out[..], at, SeekEntry(target, position))
  {
    hide *;
    SeekEntryFacts(target, position);
    var content := ElemSize(SEEK_ID, 4) + UintElemSize(SEEK_POSITION, position);
    ghost var s0 := out[..];
    n := WriteMasterHead(SEEK_MASTER_ID, content, out, at);
    ghost var s1 := out[..];
    var m := WriteBytes(SEEK_ID, Id(target), out, at + n);
    ghost var s2 := out[..];
    n := n + m;
    m := WriteUint(SEEK_POSITION, position, out, at + n);
    n := n + m;
    StoredThen(s1, s2, out[..], at + |Head(SEEK_MASTER_ID, content)|, Elem(SEEK_ID, Id(target)),
               UintElem(SEEK_POSITION, position));
    StoredThen(s0, s1, out[..], at, Head(SEEK_MASTER_ID, content),
               Elem(SEEK_ID, Id(target)) + UintElem(SEEK_POSITION, position));
  }

  /** One more entry behind those already written. */
  method AppendSeekEntry(out: array<byte>, at: nat, target: nat, position: nat, ghost s0: seq<byte>, ghost start: nat,
                         ghost es: seq<(nat, nat)>)
    returns (n: nat)
    requires IdSize(target) == 4 && position < U64_LIMIT && at + SeekEntrySize(position) <= out.Length
    requires Stored(s0, out[..], start, SeekEntries(es)) && at == start + |SeekEntries(es)|
    modifies out
    ensures n == SeekEntrySize(position)
    ensures Stored(s0, out[..], start, SeekEntries(es + [(target, position)]))
    ensures at + n == start + |SeekEntries(es + [(target, position)])|
  {
    hide *;
    ghost var s1 := out[..];
    n := WriteSeekEntry(out, at, target, position);
    SeekEntriesSnoc(es, (target, position));
    SeekEntryLength(target, position);
    StoredThen(s0, s1, out[..], start, SeekEntries(es), SeekEntry(target, position));
  }

  lemma SeekListFacts(t: SeekTable)
    requires SeekFits(t)
    ensures SeekEntries([]) == []
    ensures var total := SeekEntrySize(t.info) + SeekEntrySize(t.tracks)
            + (match t.chapters case Some(c) => SeekEntrySize(c) case None => 0)
                         + SeekEntrySize(t.cues) + SeekEntrySize(t.tags);
            total == |SeekEntries(SeekList(t))|
    ensures IdSize(INFO_ID) == IdSize(TRACKS_ID) == IdSize(CHAPTERS_ID) == IdSize(CUES_ID) == IdSize(TAGS_ID) == 4
    ensures [] + [(INFO_ID, t.info)] + [(TRACKS_ID, t.tracks)]
            + (match t.chapters case Some(c) => [(CHAPTERS_ID, c)] case None => [])
            + [(CUES_ID, t.cues)] + [(TAGS_ID, t.tags)] == SeekList(t)
    ensures t.info < U64_LIMIT && t.tracks < U64_LIMIT && t.cues < U64_LIMIT && t.tags < U64_LIMIT
    ensures t.chapters.Some? ==> t.chapters.value < U64_LIMIT
  {
    hide SeekEntry, SeekEntrySize, IdSize, SeekHead, SeekHeadSize;
    KnownIds();
    SeekHeadLength(t);
  }

  method WriteSeekEntries(out: array<byte>, at: nat, t: SeekTable) returns (n: nat)
    requires SeekFits(t) && at + |SeekEntries(SeekList(t))| <= out.Length
    modifies out
    ensures n == |SeekEntries(SeekList(t))| && Stored(old(out[..]), out[..], at, SeekEntries(SeekList(t)))
  {
    hide *;
    SeekListFacts(t);
    ghost var s0 := out[..];
    StoredNothing(s0, at);
    ghost var es: seq<(nat, nat)> := [];
    n := AppendSeekEntry(out, at, INFO_ID, t.info, s0, at, es);
    es := es + [(INFO_ID, t.info)];
    var m := AppendSeekEntry(out, at + n, TRACKS_ID, t.tracks, s0, at, es);
    es := es + [(TRACKS_ID, t.tracks)];
    n := n + m;
    if t.chapters.Some? {
      m := AppendSeekEntry(out, at + n, CHAPTERS_ID, t.chapters.value, s0, at, es);
      es := es + [(CHAPTERS_ID, t.chapters.value)];
      n := n + m;
    } else {
      assert es + [] == es;
    }
    m := AppendSeekEntry(out, at + n, CUES_ID, t.cues, s0, at, es);
    es := es + [(CUES_ID, t.cues)];
    n := n + m;
    m := AppendSeekEntry(out, at + n, TAGS_ID, t.tags, s0, at, es);
    n := n + m;
  }

  lemma SeekHeadFacts(t: SeekTable)
    requires SeekFits(t)
    ensures var content := SeekContentSize(t);
            && CRC_ELEMENT_LEN == 6 && content == 6 + |SeekEntries(SeekList(t))| && content < SIZE_LIMIT
            && SeekHeadSize(t) == IdSize(SEEK_HEAD_ID) + VintSize(content) + content
            && |Head(SEEK_HEAD_ID, content)| == IdSize(SEEK_HEAD_ID) + VintSize(content)
            && SeekHead(t) == Head(SEEK_HEAD_ID, content)
               + (CrcElem(Crc32(SeekEntries(SeekList(t)))) + SeekEntries(SeekList(t)))
  {
    hide SeekEntries, SeekEntrySize, IdSize, VintSize, Head, CrcElem, Crc32, SeekList;
    SeekHeadLength(t);
    SeekContentSmall(t);
  }

  lemma SeekContentSmall(t: SeekTable)
    requires SeekFits(t)
    ensures SeekContentSize(t) < SIZE_LIMIT
  {
    hide SeekEntrySize;
    SeekEntrySmall(t.info);
    SeekEntrySmall(t.tracks);
    if t.chapters.Some? { SeekEntrySmall(t.chapters.value); }
    SeekEntrySmall(t.cues);
    SeekEntrySmall(t.tags);
  }

  lemma SeekEntrySmall(position: nat)
    requires position < U64_LIMIT
    ensures SeekEntrySize(position) <= 50
  {
    hide IdSize, VintSize, UintSize;
    UintSizeRange(position);
    SmallVint(4);
    EbmlRead.IdBits(SEEK_ID);
    EbmlRead.IdBits(SEEK_POSITION);
    EbmlRead.IdBits(SEEK_MASTER_ID);
    VintSizeRange(ElemSize(SEEK_ID, 4) + UintElemSize(SEEK_POSITION, position));
  }

  method WriteSeekHead(out: array<byte>, at: nat, t: SeekTable) returns (n: nat)
    requires SeekFits(t) && at + SeekHeadSize(t) <= out.Length
    modifies out
    ensures n == SeekHeadSize(t) && Stored(old(out[..]), out[..], at, SeekHead(t))
  {
    hide *;
    SeekHeadFacts(t);
    var content := SeekContentSize(t);
    ghost var s0 := out[..];
    n := WriteMasterHead(SEEK_HEAD_ID, content, out, at);
    ghost var s1 := out[..];
    var crcOffset := at + n + 2;
    var m := WriteCrcPlaceholder(out, at + n);
    ghost var s2 := out[..];
    n := n + m;
    var childrenStart := at + n;
    m := WriteSeekEntries(out, at + n, t);
    n := n + m;
    SealCrc(out, s0, s1, s2, at, Head(SEEK_HEAD_ID, content), crcOffset, childrenStart, at + n,
            SeekEntries(SeekList(t)));
  }

  // ---- Cues

  method WriteCueFront(out: array<byte>, at: nat, c: Cue) returns (n: nat)
    requires CueFits(c) && at + |CueFront(c)| <= out.Length
    modifies out
    ensures n == |CueFront(c)| && Stored(old(out[..]), out[..], at, CueFront(c))
  {
    hide *;
    CueFrontFacts(c);
    ghost var s0 := out[..];
    n := WriteUint(CUE_TRACK, 1, out, at);
    ghost var s1 := out[..];
    var m := WriteUint(CUE_CLUSTER_POSITION, c.clusterPosition, out, at + n);
    ghost var s2 := out[..];
    n := n + m;
    m := WriteUint(CUE_RELATIVE_POSITION, c.relativePosition, out, at + n);
    n := n + m;
    StoredThen3(s0, s1, s2, out[..], at, UintElem(CUE_TRACK, 1), UintElem(CUE_CLUSTER_POSITION, c.clusterPosition),
                UintElem(CUE_RELATIVE_POSITION, c.relativePosition));
  }

  lemma CueFrontFacts(c: Cue)
    requires CueFits(c)
    ensures |UintElem(CUE_TRACK, 1)| == UintElemSize(CUE_TRACK, 1)
    ensures |UintElem(CUE_CLUSTER_POSITION, c.clusterPosition)| == UintElemSize(CUE_CLUSTER_POSITION, c.clusterPosition)
    ensures |UintElem(CUE_RELATIVE_POSITION, c.relativePosition)|
            == UintElemSize(CUE_RELATIVE_POSITION, c.relativePosition)
    ensures CueFront(c) == UintElem(CUE_TRACK, 1) + UintElem(CUE_CLUSTER_POSITION, c.clusterPosition)
            + UintElem(CUE_RELATIVE_POSITION, c.relativePosition)
    ensures 1 < U64_LIMIT && c.clusterPosition < U64_LIMIT && c.relativePosition < U64_LIMIT
  {
    hide UintElem, UintElemSize;
    UintElemLen(CUE_TRACK, 1);
    UintElemLen(CUE_CLUSTER_POSITION, c.clusterPosition);
    UintElemLen(CUE_RELATIVE_POSITION, c.relativePosition);
  }

  method WriteCueBack(out: array<byte>, at: nat, c: Cue) returns (n: nat)
    requires at + |CueBack(c)| <= out.Length
    modifies out
    ensures n == |CueBack(c)| && Stored(old(out[..]), out[..], at, CueBack(c))
  {
    hide *;
    CueBackFacts(c);
    ghost var s0 := out[..];
    n := WriteUint(CUE_DURATION, c.durationTicks, out, at);
    ghost var s1 := out[..];
    var m := WriteUint(CUE_BLOCK_NUMBER, 1, out, at + n);
    ghost var s2 := out[..];
    n := n + m;
    m := WriteUint(CUE_CODEC_STATE, 0, out, at + n);
    n := n + m;
    StoredThen3(s0, s1, s2, out[..], at, UintElem(CUE_DURATION, c.durationTicks), UintElem(CUE_BLOCK_NUMBER, 1),
                UintElem(CUE_CODEC_STATE, 0));
  }

  lemma CueBackFacts(c: Cue)
    ensures |UintElem(CUE_DURATION, c.durationTicks)| == UintElemSize(CUE_DURATION, c.durationTicks)
    ensures |UintElem(CUE_BLOCK_NUMBER, 1)| == UintElemSize(CUE_BLOCK_NUMBER, 1)
    ensures |UintElem(CUE_CODEC_STATE, 0)| == UintElemSize(CUE_CODEC_STATE, 0)
    ensures CueBack(c) == UintElem(CUE_DURATION, c.durationTicks) + UintElem(CUE_BLOCK_NUMBER, 1)
            + UintElem(CUE_CODEC_STATE, 0)
    ensures c.durationTicks < U64_LIMIT && 1 < U64_LIMIT
  {
    hide UintElem, UintElemSize;
    UintElemLen(CUE_DURATION, c.durationTicks);
    UintElemLen(CUE_BLOCK_NUMBER, 1);
    UintElemLen(CUE_CODEC_STATE, 0);
  }

  lemma CueFacts(c: Cue)
    requires CueFits(c)
    ensures var tp := 16 + UintSize(c.clusterPosition) + UintSize(c.relativePosition) + UintSize(c.durationTicks);
            var content := 2 + UintSize(c.timeTicks) + 2 + tp;
            var time := UintElem(CUE_TIME, c.timeTicks);
            && |CueFront(c)| + |CueBack(c)| == tp < 127 && content < 127
            && |time| == UintElemSize(CUE_TIME, c.timeTicks) && |time| + 2 + tp == content
            && CuePointSize(c) == 2 + content && c.timeTicks < U64_LIMIT
            && CuePoint(c) == [0xBB, 0x80 + content] + time + ([0xB7, 0x80 + tp] + CueFront(c) + CueBack(c))
  {
    hide UintElem, UintElemSize, UintSize, IdSize, CueFront, CueBack, Vint, Id, VintSize, Head;
    CuePointLength(c);
    UintElemLen(CUE_TIME, c.timeTicks);
    CueLengths(c);
  }

  method WriteCuePoint(out: array<byte>, at: nat, c: Cue) returns (n: nat)
    requires CueFits(c) && at + CuePointSize(c) <= out.Length
    modifies out
    ensures n == CuePointSize(c) && Stored(old(out[..]), out[..], at, CuePoint(c))
  {
    hide *;
    CueFacts(c);
    var tpContent := 16 + UintSize(c.clusterPosition) + UintSize(c.relativePosition) + UintSize(c.durationTicks);
    var cueContent := 2 + UintSize(c.timeTicks) + 2 + tpContent;
    ghost var s0 := out[..];
    Store(out, at, [0xBB, 0x80 + cueContent]);
    ghost var s1 := out[..];
    n := 2;
    var m := WriteUint(CUE_TIME, c.timeTicks, out, at + n);
    ghost var s2 := out[..];
    n := n + m;
    Store(out, at + n, [0xB7, 0x80 + tpContent]);
    ghost var s3 := out[..];
    n := n + 2;
    m := WriteCueFront(out, at + n, c);
    ghost var s4 := out[..];
    n := n + m;
    m := WriteCueBack(out, at + n, c);
    n := n + m;
    ghost var time := UintElem(CUE_TIME, c.timeTicks);
    StoredThen3(s2, s3, s4, out[..], at + 2 + |time|, [0xB7, 0x80 + tpContent], CueFront(c), CueBack(c));
    StoredThen3(s0, s1, s2, out[..], at, [0xBB, 0x80 + cueContent], time,
                [0xB7, 0x80 + tpContent] + CueFront(c) + CueBack(c));
  }

  lemma CuePointsNext(plans: seq<ClusterPlan>, posWidth: nat, frameDur: u64, c: nat)
    requires c < |plans| && CuesFit(plans, posWidth, frameDur)
    ensures var cue := CueOf(plans[c], posWidth, frameDur);
            && CueFits(cue)
            && CuePoints(plans[..c + 1], posWidth, frameDur) == CuePoints(plans[..c], posWidth, frameDur)
               + CuePoint(cue)
            && |CuePoints(plans[..c], posWidth, frameDur)| + CuePointSize(cue)
               == |CuePoints(plans[..c + 1], posWidth, frameDur)|
    ensures |CuePoints(plans[..c + 1], posWidth, frameDur)| <= |CuePoints(plans, posWidth, frameDur)|
  {
    hide CuePoint, CuePointSize, CueOf, CueFits;
    assert plans[..c + 1][..c] == plans[..c];
    CuePointLength(CueOf(plans[c], posWidth, frameDur));
    CuePointsGrow(plans, posWidth, frameDur, c + 1);
  }

  lemma {:induction false} CuePointsGrow(plans: seq<ClusterPlan>, posWidth: nat, frameDur: u64, k: nat)
    requires k <= |plans|
    ensures |CuePoints(plans[..k], posWidth, frameDur)| <= |CuePoints(plans, posWidth, frameDur)|
    decreases |plans| - k
  {
    hide CuePoint, CueOf;
    if k < |plans| {
      assert plans[..k + 1][..k] == plans[..k];
      CuePointsGrow(plans, posWidth, frameDur, k + 1);
    } else {
      assert plans[..k] == plans;
    }
  }

  lemma CuePointsEnds(plans: seq<ClusterPlan>, posWidth: nat, frameDur: u64)
    ensures CuePoints(plans[..0], posWidth, frameDur) == [] && plans[..|plans|] == plans
  {}

  method WriteCuePoints(out: array<byte>, at: nat, plans: seq<ClusterPlan>, posWidth: nat, frameDur: u64)
    returns (n: nat)
    requires CuesFit(plans, posWidth, frameDur) && at + |CuePoints(plans, posWidth, frameDur)| <= out.Length
    modifies out
    ensures n == |CuePoints(plans, posWidth, frameDur)|
    ensures Stored(old(out[..]), out[..], at, CuePoints(plans, posWidth, frameDur))
  {
    hide *;
    ghost var s0 := out[..];
    n := 0;
    StoredNothing(s0, at);
    CuePointsEnds(plans, posWidth, frameDur);
    for c := 0 to |plans|
      invariant n == |CuePoints(plans[..c], posWidth, frameDur)|
      invariant Stored(s0, out[..], at, CuePoints(plans[..c], posWidth, frameDur))
    {
      ghost var s1 := out[..];
      CuePointsNext(plans, posWidth, frameDur, c);
      var m := WriteCuePoint(out, at + n, CueOf(plans[c], posWidth, frameDur));
      StoredThen(s0, s1, out[..], at, CuePoints(plans[..c], posWidth, frameDur),
                 CuePoint(CueOf(plans[c], posWidth, frameDur)));
      n := n + m;
    }
  }

  lemma CuesFacts(plans: seq<ClusterPlan>, posWidth: nat, frameDur: u64, content: nat)
    requires CuesFit(plans, posWidth, frameDur) && content == CRC_ELEMENT_LEN + CuePointsSize(plans, posWidth, frameDur)
    ensures var body := CuePoints(plans, posWidth, frameDur);
            && CRC_ELEMENT_LEN == 6 && content == 6 + |body|
            && CuesSize(content) == IdSize(CUES_ID) + VintSize(content) + content
            && |Head(CUES_ID, content)| == IdSize(CUES_ID) + VintSize(content)
            && Cues(plans, posWidth, frameDur) == Head(CUES_ID, content) + (CrcElem(Crc32(body)) + body)
            && |Cues(plans, posWidth, frameDur)| == CuesSize(content)
  {
    hide CuePoints, CuePointsSize, IdSize, VintSize, Head, CrcElem, Crc32, CueFits, CueOf;
    CuePointsLength(plans, posWidth, frameDur);
  }

  method WriteCues(out: array<byte>, at: nat, plans: seq<ClusterPlan>, posWidth: nat, frameDur: u64, content: nat)
    returns (n: nat)
    requires CuesFit(plans, posWidth, frameDur) && content == CRC_ELEMENT_LEN
             + CuePointsSize(plans, posWidth, frameDur) < SIZE_LIMIT
    requires at + CuesSize(content) <= out.Length
    modifies out
    ensures n == CuesSize(content) && Stored(old(out[..]), out[..], at, Cues(plans, posWidth, frameDur))
  {
    hide *;
    CuesFacts(plans, posWidth, frameDur, content);
    ghost var s0 := out[..];
    n := WriteMasterHead(CUES_ID, content, out, at);
    ghost var s1 := out[..];
    var crcOffset := at + n + 2;
    var m := WriteCrcPlaceholder(out, at + n);
    ghost var s2 := out[..];
    n := n + m;
    var childrenStart := at + n;
    m := WriteCuePoints(out, at + n, plans, posWidth, frameDur);
    n := n + m;
    SealCrc(out, s0, s1, s2, at, Head(CUES_ID, content), crcOffset, childrenStart, at + n,
            CuePoints(plans, posWidth, frameDur));
  }

  // ---- Cluster

  datatype ClusterHeader = ClusterHeader(len: nat, crcOffset: nat, timestampStart: nat)

  lemma ClusterFacts(ts: u64, blocks: nat, position: nat, posWidth: nat, prevSize: nat)
    requires posWidth <= 8 && prevSize < U64_LIMIT && ClusterContentSize(ts, blocks, posWidth, prevSize) < SIZE_LIMIT
    ensures var content := ClusterContentSize(ts, blocks, posWidth, prevSize);
            var fields := ClusterFields(ts, position, posWidth, prevSize);
            && CRC_ELEMENT_LEN == 6 && |HOLE| == 6 && HOLE == [0xBF, 0x84, 0, 0, 0, 0]
            && |Head(CLUSTER_ID, content)| == IdSize(CLUSTER_ID) + VintSize(content) <= 12 && |fields| <= 30
            && content == 6 + |fields| + blocks
            && ClusterSize(ts, blocks, posWidth, prevSize) == |Head(CLUSTER_ID, content)| + 6 + |fields| + blocks
            && |UintElem(TIMESTAMP_ID, ts)| == UintElemSize(TIMESTAMP_ID, ts) && ts < U64_LIMIT
            && |Elem(POSITION_ID, BeBytes(position, posWidth))| == IdSize(POSITION_ID) + 1 + posWidth
            && |fields| == |UintElem(TIMESTAMP_ID, ts)| + |Elem(POSITION_ID, BeBytes(position, posWidth))|
               + |PrevElem(prevSize)|
            && fields == UintElem(TIMESTAMP_ID, ts) + Elem(POSITION_ID, BeBytes(position, posWidth))
               + PrevElem(prevSize)
  {
    hide IdSize, VintSize, UintElem, UintElemSize, UintSize, Elem, PrevElem, PrevOctets;
    var content := ClusterContentSize(ts, blocks, posWidth, prevSize);
    KnownIds();
    FieldIds();
    VintSizeRange(content);
    FieldsLength(ts, position, posWidth, prevSize);
    UintElemLen(TIMESTAMP_ID, ts);
    PositionLength(position, posWidth);
  }

  method WritePrev(out: array<byte>, at: nat, prevSize: nat) returns (n: nat)
    requires prevSize < U64_LIMIT && at + |PrevElem(prevSize)| <= out.Length
    modifies out
    ensures n == |PrevElem(prevSize)| && Stored(old(out[..]), out[..], at, PrevElem(prevSize))
  {
    hide UintElem, UintElemSize, Stored;
    StoredNothing(out[..], at);
    UintElemLen(PREV_SIZE_ID, prevSize);
    n := 0;
    if prevSize > 0 { n := WriteUint(PREV_SIZE_ID, prevSize, out, at); }
  }

  /**
   * Head, empty checksum and fields of a cluster. Whatever the plan, they fit the 48 octets given:
   * 4 ID, 8 length, 6 checksum, 10 timestamp, 10 position, 10 predecessor size.
   */
  method BuildClusterHeader(out: array<byte>, ts: u64, blocks: nat, position: nat, posWidth: nat, prevSize: nat)
    returns (h: ClusterHeader)
    requires out.Length == 48
    requires posWidth <= 8 && prevSize < U64_LIMIT && ClusterContentSize(ts, blocks, posWidth, prevSize) < SIZE_LIMIT
    modifies out
    ensures var head := Head(CLUSTER_ID, ClusterContentSize(ts, blocks, posWidth, prevSize));
            var fields := ClusterFields(ts, position, posWidth, prevSize);
            && h == ClusterHeader(|head| + 6 + |fields|, |head| + 2, |head| + 6)
            && h.len + blocks == ClusterSize(ts, blocks, posWidth, prevSize) && h.len <= 48
            && Stored(old(out[..]), out[..], 0, head + HOLE + fields)
  {
    hide *;
    ClusterFacts(ts, blocks, position, posWidth, prevSize);
    var content := ClusterContentSize(ts, blocks, posWidth, prevSize);
    ghost var head := Head(CLUSTER_ID, content);
    ghost var s0 := out[..];
    var n := WriteMasterHead(CLUSTER_ID, content, out, 0);
    ghost var s1 := out[..];
    var crcOffset := n + 2;
    var m := WriteCrcPlaceholder(out, n);
    ghost var s2 := out[..];
    n := n + m;
    var timestampStart := n;
    m := WriteUint(TIMESTAMP_ID, ts, out, n);
    ghost var s3 := out[..];
    n := n + m;
    m := WriteUintWidth(POSITION_ID, position, posWidth, out, n);
    ghost var s4 := out[..];
    n := n + m;
    m := WritePrev(out, n, prevSize);
    n := n + m;
    StoredThen3(s2, s3, s4, out[..], timestampStart, UintElem(TIMESTAMP_ID, ts),
                Elem(POSITION_ID, BeBytes(position, posWidth)), PrevElem(prevSize));
    StoredThen3(s0, s1, s2, out[..], 0, head, HOLE, ClusterFields(ts, position, posWidth, prevSize));
    h := ClusterHeader(n, crcOffset, timestampStart);
  }

  method WriteSegmentHeader(out: array<byte>, at: nat, content: nat) returns (n: nat)
    requires content < SIZE_LIMIT && at + |Head(SEGMENT_ID, content)| <= out.Length
    modifies out
    ensures n == |Head(SEGMENT_ID, content)| && Stored(old(out[..]), out[..], at, Head(SEGMENT_ID, content))
  {
    hide Stored, Head, IdSize, VintSize;
    n := WriteMasterHead(SEGMENT_ID, content, out, at);
  }
}
