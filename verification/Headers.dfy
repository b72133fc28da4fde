/** The header elements whose contents are positions: SeekHead, Cues, and the head of each cluster. */
module Headers {
  import opened Bytes
  import opened Ebml
  import opened EbmlRead
  import opened Crc
  import opened Chapters
  import opened ClusterPlans
  import opened Layouts

  const INFO_ID: nat := 0x1549_A966
  const TRACKS_ID: nat := 0x1654_AE6B
  const TAGS_ID: nat := 0x1254_C367
  const SEGMENT_ID: nat := 0x1853_8067
  const TIMESTAMP_ID: nat := 0xE7
  const POSITION_ID: nat := 0xA7
  const PREV_SIZE_ID: nat := 0xAB
  const CUE_POINT: nat := 0xBB
  const CUE_TIME: nat := 0xB3
  const CUE_TRACK_POSITIONS: nat := 0xB7
  const CUE_TRACK: nat := 0xF7
  const CUE_CLUSTER_POSITION: nat := 0xF1
  const CUE_RELATIVE_POSITION: nat := 0xF0
  const CUE_DURATION: nat := 0xB2
  const CUE_BLOCK_NUMBER: nat := 0x5378
  const CUE_CODEC_STATE: nat := 0xEA

  // ---- octets

  /** A checksum over `body`, then `body`. */
  function Sealed(body: seq<byte>): (s: seq<byte>)
    ensures |s| == CRC_ELEMENT_LEN + |body|
  {
    CrcElem(Crc32(body)) + body
  }

  function SeekContent(target: nat, position: nat): seq<byte>
  {
    Elem(SEEK_ID, Id(target)) + UintElem(SEEK_POSITION, position)
  }

  function SeekEntry(target: nat, position: nat): seq<byte> { Elem(SEEK_MASTER_ID, SeekContent(target, position)) }

  function SeekEntries(es: seq<(nat, nat)>): seq<byte>
  {
    if |es| == 0 then [] else SeekEntries(es[..|es| - 1]) + SeekEntry(es[|es| - 1].0, es[|es| - 1].1)
  }

  /** The (ID, position) pairs a seek head lists. */
  function SeekList(t: SeekTable): seq<(nat, nat)>
  {
    [(INFO_ID, t.info), (TRACKS_ID, t.tracks)]
    + (match t.chapters case Some(c) => [(CHAPTERS_ID, c)] case None => [])
    + [(CUES_ID, t.cues), (TAGS_ID, t.tags)]
  }

  function SeekHead(t: SeekTable): seq<byte> { Elem(SEEK_HEAD_ID, Sealed(SeekEntries(SeekList(t)))) }

  function CueFront(c: Cue): seq<byte>
  {
    UintElem(CUE_TRACK, 1) + UintElem(CUE_CLUSTER_POSITION, c.clusterPosition)
        + UintElem(CUE_RELATIVE_POSITION, c.relativePosition)
  }

  function CueBack(c: Cue): seq<byte>
  {
    UintElem(CUE_DURATION, c.durationTicks) + UintElem(CUE_BLOCK_NUMBER, 1) + UintElem(CUE_CODEC_STATE, 0)
  }

  function CueTrack(c: Cue): seq<byte> { CueFront(c) + CueBack(c) }

  function CueContent(c: Cue): seq<byte>
  {
    UintElem(CUE_TIME, c.timeTicks) + Elem(CUE_TRACK_POSITIONS, CueTrack(c))
  }

  function CuePoint(c: Cue): seq<byte> { Elem(CUE_POINT, CueContent(c)) }

  function CuePoints(plans: seq<ClusterPlan>, posWidth: nat, frameDur: u64): seq<byte>
  {
    if |plans| == 0 then []
    else CuePoints(plans[..|plans| - 1], posWidth, frameDur) + CuePoint(CueOf(plans[|plans| - 1], posWidth, frameDur))
  }

  function Cues(plans: seq<ClusterPlan>, posWidth: nat, frameDur: u64): seq<byte>
  {
    Elem(CUES_ID, Sealed(CuePoints(plans, posWidth, frameDur)))
  }

  function PrevElem(prevSize: nat): seq<byte> { if prevSize > 0 then UintElem(PREV_SIZE_ID, prevSize) else [] }

  /** Timestamp, Position and PrevSize: what precedes the blocks under the cluster's checksum. */
  function ClusterFields(ts: u64, position: nat, posWidth: nat, prevSize: nat): seq<byte>
  {
    UintElem(TIMESTAMP_ID, ts) + Elem(POSITION_ID, BeBytes(position, posWidth)) + PrevElem(prevSize)
  }

  // ---- lengths

  lemma KnownIds()
    ensures IsId(INFO_ID) && IsId(TRACKS_ID) && IsId(CHAPTERS_ID) && IsId(TAGS_ID) && IsId(CUES_ID) && IsId(CLUSTER_ID)
    ensures IsId(SEGMENT_ID) && IsId(SEEK_HEAD_ID)
    ensures IdSize(INFO_ID) == IdSize(TRACKS_ID) == IdSize(CHAPTERS_ID) == IdSize(TAGS_ID) == IdSize(CUES_ID) == 4
    ensures IdSize(CLUSTER_ID) == IdSize(SEGMENT_ID) == IdSize(SEEK_HEAD_ID) == 4
  {
    hide IdSize, BitLen;
    IdBits(INFO_ID); IdBits(TRACKS_ID); IdBits(CHAPTERS_ID); IdBits(TAGS_ID);
    IdBits(CUES_ID); IdBits(CLUSTER_ID); IdBits(SEGMENT_ID); IdBits(SEEK_HEAD_ID);
  }

  lemma FieldIds()
    ensures IdSize(TIMESTAMP_ID) == IdSize(POSITION_ID) == IdSize(PREV_SIZE_ID) == IdSize(CUE_POINT)
            == IdSize(CUE_TIME) == 1
    ensures IdSize(CUE_TRACK_POSITIONS) == IdSize(CUE_TRACK) == IdSize(CUE_CLUSTER_POSITION)
            == IdSize(CUE_RELATIVE_POSITION) == 1
    ensures IdSize(CUE_DURATION) == IdSize(CUE_CODEC_STATE) == 1 && IdSize(CUE_BLOCK_NUMBER) == 2
  {
    hide IdSize, BitLen;
    IdBits(TIMESTAMP_ID); IdBits(POSITION_ID); IdBits(PREV_SIZE_ID); IdBits(CUE_POINT); IdBits(CUE_TIME);
    IdBits(CUE_TRACK_POSITIONS); IdBits(CUE_TRACK); IdBits(CUE_CLUSTER_POSITION); IdBits(CUE_RELATIVE_POSITION);
    IdBits(CUE_DURATION); IdBits(CUE_CODEC_STATE); IdBits(CUE_BLOCK_NUMBER);
  }

  lemma SeekEntryLength(target: nat, position: nat)
    requires IdSize(target) == 4 && position < U64_LIMIT
    ensures |SeekEntry(target, position)| == SeekEntrySize(position)
    ensures |SeekContent(target, position)| == ElemSize(SEEK_ID, 4) + UintElemSize(SEEK_POSITION, position)
  {
    hide IdSize, UintElem, UintElemSize, ElemSize;
    UintElemLen(SEEK_POSITION, position);
  }

  /** Positions a 64-bit field can hold. */
  predicate SeekFits(t: SeekTable)
  {
    && t.info < U64_LIMIT && t.tracks < U64_LIMIT && t.cues < U64_LIMIT && t.tags < U64_LIMIT
    && (t.chapters.Some? ==> t.chapters.value < U64_LIMIT)
  }

  lemma SeekEntriesSnoc(es: seq<(nat, nat)>, e: (nat, nat))
    ensures SeekEntries(es + [e]) == SeekEntries(es) + SeekEntry(e.0, e.1)
  {
    hide SeekEntry;
    assert (es + [e])[..|es|] == es;
  }

  lemma SeekHeadLength(t: SeekTable)
    requires SeekFits(t)
    ensures |SeekEntries(SeekList(t))| + CRC_ELEMENT_LEN == SeekContentSize(t) && |SeekHead(t)| == SeekHeadSize(t)
  {
    hide SeekEntry, SeekEntrySize, Elem, ElemSize, IdSize, Sealed, SeekEntries;
    KnownIds();
    var e1, e2, e4, e5 := (INFO_ID, t.info), (TRACKS_ID, t.tracks), (CUES_ID, t.cues), (TAGS_ID, t.tags);
    var front := [e1, e2] + (match t.chapters case Some(c) => [(CHAPTERS_ID, c)] case None => []);
    SeekFrontLength(t);
    assert SeekList(t) == front + [e4] + [e5];
    SeekEntriesSnoc(front, e4);
    SeekEntriesSnoc(front + [e4], e5);
    SeekEntryLength(CUES_ID, t.cues);
    SeekEntryLength(TAGS_ID, t.tags);
  }

  lemma SeekFrontLength(t: SeekTable)
    requires SeekFits(t)
    ensures var front := [(INFO_ID, t.info), (TRACKS_ID, t.tracks)]
            + (match t.chapters case Some(c) => [(CHAPTERS_ID, c)] case None => []);
            |SeekEntries(front)| == SeekEntrySize(t.info) + SeekEntrySize(t.tracks)
                                    + (match t.chapters case Some(c) => SeekEntrySize(c) case None => 0)
  {
    hide SeekEntry, SeekEntrySize, IdSize, SeekEntries;
    KnownIds();
    var e1, e2 := (INFO_ID, t.info), (TRACKS_ID, t.tracks);
    SeekNone();
    SeekEntriesSnoc([], e1);
    SeekEntriesSnoc([e1], e2);
    assert [] + [e1] == [e1] && [e1] + [e2] == [e1, e2] && [e1, e2] + [] == [e1, e2];
    SeekEntryLength(INFO_ID, t.info);
    SeekEntryLength(TRACKS_ID, t.tracks);
    if t.chapters.Some? {
      SeekEntriesSnoc([e1, e2], (CHAPTERS_ID, t.chapters.value));
      SeekEntryLength(CHAPTERS_ID, t.chapters.value);
    }
  }

  lemma SeekNone()
    ensures SeekEntries([]) == []
  {}

  predicate CueFits(c: Cue) { c.clusterPosition < U64_LIMIT && c.relativePosition < U64_LIMIT }

  lemma CueLengths(c: Cue)
    requires CueFits(c)
    ensures |CueFront(c)| == 7 + UintSize(c.clusterPosition) + UintSize(c.relativePosition)
    ensures |CueBack(c)| == 9 + UintSize(c.durationTicks)
    ensures |UintElem(CUE_TIME, c.timeTicks)| == 2 + UintSize(c.timeTicks)
  {
    hide UintElem, UintSize, IdSize;
    FieldIds();
    UintOf01();
    UintElemLen(CUE_TIME, c.timeTicks);
    UintElemLen(CUE_TRACK, 1);
    UintElemLen(CUE_CLUSTER_POSITION, c.clusterPosition);
    UintElemLen(CUE_RELATIVE_POSITION, c.relativePosition);
    UintElemLen(CUE_DURATION, c.durationTicks);
    UintElemLen(CUE_BLOCK_NUMBER, 1);
    UintElemLen(CUE_CODEC_STATE, 0);
  }

  lemma UintOf01()
    ensures UintSize(0) == 1 && UintSize(1) == 1
  {}

  /** The one-octet lengths the writer stores are the lengths of the contents. */
  lemma CuePointLength(c: Cue)
    requires CueFits(c)
    ensures var tp := 16 + UintSize(c.clusterPosition) + UintSize(c.relativePosition) + UintSize(c.durationTicks);
            var content := 2 + UintSize(c.timeTicks) + 2 + tp;
            && |CueTrack(c)| == tp <= 40 && |CueContent(c)| == content <= 52
            && Head(CUE_TRACK_POSITIONS, tp) == [0xB7, 0x80 + tp] && Head(CUE_POINT, content) == [0xBB, 0x80 + content]
            && |CuePoint(c)| == CuePointSize(c) == 2 + content
  {
    hide UintElem, UintSize, IdSize, CueFront, CueBack, Vint, Id, VintSize;
    CueLengths(c);
    UintSizeRange(c.timeTicks);
    UintSizeRange(c.clusterPosition);
    UintSizeRange(c.relativePosition);
    UintSizeRange(c.durationTicks);
    FieldIds();
    SmallHead(CUE_TRACK_POSITIONS, |CueTrack(c)|);
    SmallHead(CUE_POINT, |CueContent(c)|);
  }

  lemma SmallHead(id: nat, len: nat)
    requires 0 < id < 256 && len < 127
    ensures Head(id, len) == [id, 0x80 + len] && VintSize(len) == 1 && IdSize(id) == 1
  {
    hide Vint, Id, VintSize, IdSize;
    SmallVint(len);
    ShortId(id);
  }

  /** Every cue's positions fit a 64-bit field. */
  ghost predicate CuesFit(plans: seq<ClusterPlan>, posWidth: nat, frameDur: u64)
  {
    forall c :: 0 <= c < |plans| ==> CueFits(CueOf(plans[c], posWidth, frameDur))
  }

  lemma CuesFitLast(plans: seq<ClusterPlan>, posWidth: nat, frameDur: u64)
    requires CuesFit(plans, posWidth, frameDur) && |plans| > 0
    ensures CuesFit(plans[..|plans| - 1], posWidth, frameDur) && CueFits(CueOf(plans[|plans| - 1], posWidth, frameDur))
  {
    hide CueOf, CueFits;
  }

  lemma CuePointsLast(plans: seq<ClusterPlan>, posWidth: nat, frameDur: u64)
    requires |plans| > 0
    ensures var n := |plans| - 1;
            var cue := CueOf(plans[n], posWidth, frameDur);
            && CuePoints(plans, posWidth, frameDur) == CuePoints(plans[..n], posWidth, frameDur) + CuePoint(cue)
            && CuePointsSize(plans, posWidth, frameDur) == CuePointsSize(plans[..n], posWidth, frameDur)
               + CuePointSize(cue)
  {
    hide CuePoint, CuePointSize, CueOf;
  }

  lemma CuePointsNone(posWidth: nat, frameDur: u64)
    ensures CuePoints([], posWidth, frameDur) == [] && CuePointsSize([], posWidth, frameDur) == 0
  {}

  lemma {:induction false} CuePointsLength(plans: seq<ClusterPlan>, posWidth: nat, frameDur: u64)
    requires CuesFit(plans, posWidth, frameDur)
    ensures |CuePoints(plans, posWidth, frameDur)| == CuePointsSize(plans, posWidth, frameDur)
  {
    hide *;
    CuePointsNone(posWidth, frameDur);
    if |plans| > 0 {
      CuesFitLast(plans, posWidth, frameDur);
      CuePointsLast(plans, posWidth, frameDur);
      CuePointLength(CueOf(plans[|plans| - 1], posWidth, frameDur));
      CuePointsLength(plans[..|plans| - 1], posWidth, frameDur);
    }
  }

  lemma PrevLength(prevSize: nat)
    requires prevSize < U64_LIMIT
    ensures |PrevElem(prevSize)| == PrevOctets(prevSize)
  {
    hide UintElem, UintSize, IdSize;
    FieldIds();
    UintElemLen(PREV_SIZE_ID, prevSize);
  }

  lemma FieldsLength(ts: u64, position: nat, posWidth: nat, prevSize: nat)
    requires posWidth <= 8 && prevSize < U64_LIMIT
    ensures |ClusterFields(ts, position, posWidth, prevSize)| == 2 + UintSize(ts) + 2 + posWidth
            + PrevOctets(prevSize) <= 30
  {
    hide UintElem, UintSize, IdSize, PrevElem;
    FieldIds();
    UintElemLen(TIMESTAMP_ID, ts);
    UintSizeRange(ts);
    UintSizeRange(prevSize);
    PositionLength(position, posWidth);
    PrevLength(prevSize);
  }

  lemma PositionLength(position: nat, posWidth: nat)
    requires posWidth <= 8
    ensures |Elem(POSITION_ID, BeBytes(position, posWidth))| == 2 + posWidth
  {
    hide IdSize, VintSize, BeBytes;
    FieldIds();
    SmallVint(posWidth);
  }
}
