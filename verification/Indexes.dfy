/** Following the SeekHead and the Cues as a player does: the stated positions lead to the elements. */
module Indexes {
  import opened Bytes
  import opened Ebml
  import opened EbmlRead
  import opened Crc
  import opened Chapters
  import opened ChapterRead
  import opened ClusterPlans
  import opened Layouts
  import opened Headers
  import opened HeaderWrite
  import opened MatroskaFiles

  // ---- readers, with the identifiers of RFC 9559

  /** (SeekID, SeekPosition) of a Seek element: sections 5.1.1.1 to 5.1.1.1.2 of RFC 9559. */
  function SeekTarget(e: Element): Option<(nat, nat)>
  {
    if e.id != 0x4DBB then None
    else
      var cs := Children(e.content);
      match (FirstOf(cs, 0x53AB), FirstOf(cs, 0x53AC))
      case (Some(id), Some(position)) => Some((BeValue(id), BeValue(position)))
      case _ => None
  }

  function SeekTargets(cs: seq<Element>): seq<(nat, nat)>
  {
    if |cs| == 0 then []
    else (match SeekTarget(cs[0]) case Some(t) => [t] case None => []) + SeekTargets(cs[1..])
  }

  /** What the SeekHead at the front of a segment points at. */
  function SeekHeadOf(segment: seq<byte>): seq<(nat, nat)>
  {
    match ReadElement(segment)
    case Some((e, _)) => if e.id == 0x114D_9B74 then SeekTargets(Children(e.content)) else []
    case None => []
  }

  /** (CueTime, CueClusterPosition, CueRelativePosition) of a CuePoint: section 5.1.5 of RFC 9559. */
  function CueTarget(e: Element): Option<(nat, nat, nat)>
  {
    if e.id != 0xBB then None
    else
      var cs := Children(e.content);
      match (FirstOf(cs, 0xB3), FirstOf(cs, 0xB7))
      case (Some(time), Some(track)) =>
        var ts := Children(track);
        (match (FirstOf(ts, 0xF1), FirstOf(ts, 0xF0))
         case (Some(cluster), Some(relative)) => Some((BeValue(time), BeValue(cluster), BeValue(relative)))
         case _ => None)
      case _ => None
  }

  function CueTargets(cs: seq<Element>): seq<(nat, nat, nat)>
  {
    if |cs| == 0 then []
    else (match CueTarget(cs[0]) case Some(t) => [t] case None => []) + CueTargets(cs[1..])
  }

  /** What the Cues element at the front of `s` points at. */
  function CuesOf(s: seq<byte>): seq<(nat, nat, nat)>
  {
    match ReadElement(s)
    case Some((e, _)) => if e.id == 0x1C53_BB6B then CueTargets(Children(e.content)) else []
    case None => []
  }

  // ---- printed and read back

  lemma IndexIds()
    ensures IsId(CRC_ID) && IsId(SEEK_MASTER_ID) && IsId(SEEK_ID) && IsId(SEEK_POSITION) && IsId(SEEK_HEAD_ID)
    ensures IsId(CUES_ID) && IsId(CUE_POINT) && IsId(CUE_TIME) && IsId(CUE_TRACK_POSITIONS) && IsId(CUE_TRACK)
    ensures IsId(CUE_CLUSTER_POSITION) && IsId(CUE_RELATIVE_POSITION) && IsId(CUE_DURATION) && IsId(CUE_BLOCK_NUMBER)
            && IsId(CUE_CODEC_STATE)
    ensures IsId(CLUSTER_ID)
  {}

  lemma UintBack(id: nat, v: nat, rest: seq<byte>)
    requires IsId(id) && v < U64_LIMIT
    ensures Children(UintElem(id, v) + rest) == [Element(id, BeBytes(v, UintSize(v)))] + Children(rest)
  {
    hide Elem, BeBytes, UintSize, Children;
    UintSizeRange(v);
    ChildrenBack(id, BeBytes(v, UintSize(v)), rest);
  }

  lemma ChildrenNothing()
    ensures Children([]) == []
  {}

  lemma Alone(x: seq<byte>)
    ensures x + [] == x
  {}

  /** A sealed body reads as a checksum followed by the body's children. */
  lemma SealedBack(body: seq<byte>)
    ensures Children(Sealed(body)) == [Element(CRC_ID, LeBytes(Crc32(body)))] + Children(body)
  {
    hide Elem, Crc32, LeBytes, CrcElem, Children;
    IndexIds();
    CrcIsElem(Crc32(body));
    ChildrenBack(CRC_ID, LeBytes(Crc32(body)), body);
  }

  // ---- SeekHead

  lemma SeekContentBack(target: nat, position: nat)
    requires IsId(target) && IdSize(target) == 4 && position < U64_LIMIT
    ensures SeekTarget(Element(SEEK_MASTER_ID, SeekContent(target, position))) == Some((target, position))
  {
    hide Elem, BeBytes, UintSize, UintElem, Children, IdSize, Id, BeValue;
    IndexIds();
    var p := UintElem(SEEK_POSITION, position);
    ChildrenBack(SEEK_ID, Id(target), p);
    Alone(p);
    UintBack(SEEK_POSITION, position, []);
    ChildrenNothing();
    UintRoundTrip(position);
    IdValue(target);
    var cs := [Element(SEEK_ID, Id(target)), Element(SEEK_POSITION, BeBytes(position, UintSize(position)))];
    assert Children(SeekContent(target, position)) == cs;
    assert FirstOf(cs[1..], SEEK_POSITION) == Some(cs[1].content);
  }

  lemma IdValue(id: nat)
    requires IsId(id)
    ensures BeValue(Id(id)) == id
  {
    hide BitLen, BeBytes, BeValue, Pow2;
    IdBits(id);
    UintSizeLeast(id, IdSize(id));
    BeValueOfBytes(id, IdSize(id));
  }

  function SeekElements(es: seq<(nat, nat)>): seq<Element>
  {
    if |es| == 0 then []
    else SeekElements(es[..|es| - 1]) + [Element(SEEK_MASTER_ID, SeekContent(es[|es| - 1].0, es[|es| - 1].1))]
  }

  ghost predicate SeekEntriesFit(es: seq<(nat, nat)>)
  {
    forall e :: e in es ==> IsId(e.0) && IdSize(e.0) == 4 && e.1 < U64_LIMIT
  }

  lemma SeekEntriesSplit(es: seq<(nat, nat)>, rest: seq<byte>)
    requires |es| > 0 && SeekEntriesFit(es)
    ensures var n := |es| - 1;
            && SeekEntries(es) + rest == SeekEntries(es[..n])
               + (Elem(SEEK_MASTER_ID, SeekContent(es[n].0, es[n].1)) + rest)
            && SeekElements(es) == SeekElements(es[..n]) + [Element(SEEK_MASTER_ID, SeekContent(es[n].0, es[n].1))]
            && SeekEntriesFit(es[..n]) && |SeekContent(es[n].0, es[n].1)| < SIZE_LIMIT
  {
    hide Elem, SeekContent, IdSize, IsId;
    var n := |es| - 1;
    assert es[n] in es;
    SeekContentFits(es[n].0, es[n].1);
    assert (SeekEntries(es[..n]) + Elem(SEEK_MASTER_ID, SeekContent(es[n].0, es[n].1))) + rest
        == SeekEntries(es[..n]) + (Elem(SEEK_MASTER_ID, SeekContent(es[n].0, es[n].1)) + rest);
  }

  lemma {:induction false} SeekEntriesBack(es: seq<(nat, nat)>, rest: seq<byte>)
    requires SeekEntriesFit(es)
    ensures Children(SeekEntries(es) + rest) == SeekElements(es) + Children(rest)
    decreases es
  {
    hide Elem, SeekContent, Children, IdSize, IsId, SeekEntriesFit;
    if |es| == 0 {
      assert [] + rest == rest;
    } else {
      hide SeekEntries, SeekElements;
      var n := |es| - 1;
      var content := SeekContent(es[n].0, es[n].1);
      SeekEntriesSplit(es, rest);
      SeekEntriesBack(es[..n], Elem(SEEK_MASTER_ID, content) + rest);
      IndexIds();
      ChildrenBack(SEEK_MASTER_ID, content, rest);
      assert SeekElements(es[..n]) + ([Element(SEEK_MASTER_ID, content)] + Children(rest)) == SeekElements(es)
             + Children(rest);
    }
  }

  lemma SeekContentFits(target: nat, position: nat)
    requires IdSize(target) == 4 && position < U64_LIMIT
    ensures |SeekContent(target, position)| < SIZE_LIMIT && IsId(SEEK_MASTER_ID)
  {
    hide IdSize, SeekContent, UintElemSize, ElemSize, Elem, UintElem, SeekEntry, VintSize;
    SeekEntryFacts(target, position);
  }

  lemma {:induction false} SeekTargetsConcat(a: seq<Element>, b: seq<Element>)
    ensures SeekTargets(a + b) == SeekTargets(a) + SeekTargets(b)
    decreases a
  {
    hide SeekTarget;
    if |a| == 0 {
      assert a + b == b;
    } else {
      assert (a + b)[1..] == a[1..] + b;
      SeekTargetsConcat(a[1..], b);
    }
  }

  lemma {:induction false} SeekElementsBack(es: seq<(nat, nat)>)
    requires SeekEntriesFit(es)
    ensures SeekTargets(SeekElements(es)) == es
    decreases es
  {
    hide SeekTarget, SeekContent, IdSize, IsId;
    if |es| > 0 {
      var n := |es| - 1;
      var last := [Element(SEEK_MASTER_ID, SeekContent(es[n].0, es[n].1))];
      SeekElementsBack(es[..n]);
      SeekTargetsConcat(SeekElements(es[..n]), last);
      assert es[n] in es;
      SeekContentBack(es[n].0, es[n].1);
      assert SeekTargets(last[1..]) == [];
    }
  }

  lemma SeekListFits(t: SeekTable)
    requires SeekFits(t)
    ensures SeekEntriesFit(SeekList(t))
  {
    hide IdSize;
    KnownIds();
  }

  /** A player reading the written SeekHead gets exactly the table it was written from. */
  lemma SeekHeadRoundTrip(t: SeekTable, rest: seq<byte>)
    requires SeekFits(t)
    ensures SeekHeadOf(SeekHead(t) + rest) == SeekList(t)
  {
    hide Elem, SeekList, Children, SeekEntries, SeekFits, ReadElement, SeekEntriesFit, Crc32, SeekContentSize;
    var body := SeekEntries(SeekList(t));
    SeekListFits(t);
    IndexIds();
    SeekHeadLength(t);
    SeekContentSmall(t);
    ReadElementBack(SEEK_HEAD_ID, Sealed(body), rest);
    SealedBack(body);
    SeekEntriesBack(SeekList(t), []);
    Alone(body);
    ChildrenNothing();
    var crc := Element(CRC_ID, LeBytes(Crc32(body)));
    assert SeekElements(SeekList(t)) + [] == SeekElements(SeekList(t));
    SeekTargetsConcat([crc], SeekElements(SeekList(t)));
    SeekElementsBack(SeekList(t));
    assert SeekTarget(crc) == None;
    assert [crc][1..] == [];
  }

  // ---- Cues

  lemma SixApart(a: seq<byte>, b: seq<byte>, c: seq<byte>, d: seq<byte>, e: seq<byte>, f: seq<byte>)
    ensures (a + b + c) + (d + e + f) == a + (b + (c + (d + (e + (f + [])))))
  {}

  /** The content of a uint element. */
  function UintContent(v: nat): seq<byte> { BeBytes(v, UintSize(v)) }

  function TrackElements(c: Cue): seq<Element>
  {
    [Element(CUE_TRACK, UintContent(1)), Element(CUE_CLUSTER_POSITION, UintContent(c.clusterPosition)),
     Element(CUE_RELATIVE_POSITION, UintContent(c.relativePosition)),
         Element(CUE_DURATION, UintContent(c.durationTicks)),
     Element(CUE_BLOCK_NUMBER, UintContent(1)), Element(CUE_CODEC_STATE, UintContent(0))]
  }

  lemma CueTrackBack(c: Cue)
    requires CueFits(c)
    ensures Children(CueTrack(c)) == TrackElements(c)
  {
    hide UintElem, Children, IsId;
    hide UintContent;
    IndexIds();
    var a, b, r := UintElem(CUE_TRACK, 1), UintElem(CUE_CLUSTER_POSITION, c.clusterPosition),
        UintElem(CUE_RELATIVE_POSITION, c.relativePosition);
    var d, e, f := UintElem(CUE_DURATION, c.durationTicks), UintElem(CUE_BLOCK_NUMBER, 1), UintElem(CUE_CODEC_STATE, 0);
    SixApart(a, b, r, d, e, f);
    ChildBack(CUE_CODEC_STATE, 0, []);
    ChildBack(CUE_BLOCK_NUMBER, 1, f + []);
    ChildBack(CUE_DURATION, c.durationTicks, e + (f + []));
    ChildBack(CUE_RELATIVE_POSITION, c.relativePosition, d + (e + (f + [])));
    ChildBack(CUE_CLUSTER_POSITION, c.clusterPosition, r + (d + (e + (f + []))));
    ChildBack(CUE_TRACK, 1, b + (r + (d + (e + (f + [])))));
    ChildrenNothing();
  }

  lemma ChildBack(id: nat, v: nat, rest: seq<byte>)
    requires IsId(id) && v < U64_LIMIT
    ensures Children(UintElem(id, v) + rest) == [Element(id, UintContent(v))] + Children(rest)
  {
    hide UintElem, Children, IsId, BeBytes, UintSize;
    UintBack(id, v, rest);
  }

  lemma TrackFinds(c: Cue)
    ensures FirstOf(TrackElements(c), 0xF1) == Some(UintContent(c.clusterPosition))
    ensures FirstOf(TrackElements(c), 0xF0) == Some(UintContent(c.relativePosition))
  {
    hide UintContent;
    var ts := TrackElements(c);
    assert ts[1..][0] == ts[1] && ts[1..][1..][0] == ts[2];
    assert FirstOf(ts[1..][1..], 0xF0) == Some(UintContent(c.relativePosition));
  }

  /** The rest of a cue: it is of track 1, its block the first of the cluster, its duration that of the frame. */
  lemma CueSays(c: Cue)
    requires CueFits(c)
    ensures var ts := Children(CueTrack(c));
            && FirstOf(ts, 0xF7).Some? && BeValue(FirstOf(ts, 0xF7).value) == 1
            && FirstOf(ts, 0xB2).Some? && BeValue(FirstOf(ts, 0xB2).value) == c.durationTicks
            && FirstOf(ts, 0x5378).Some? && BeValue(FirstOf(ts, 0x5378).value) == 1
            && FirstOf(ts, 0xEA).Some? && BeValue(FirstOf(ts, 0xEA).value) == 0
  {
    hide Children, CueTrack, BeValue, BeBytes, UintSize;
    CueTrackBack(c);
    UintRoundTrip(0);
    UintRoundTrip(1);
    UintRoundTrip(c.durationTicks);
    var ts := TrackElements(c);
    assert ts[3..] == ts[1..][1..][1..] && ts[4..] == ts[3..][1..] && ts[5..] == ts[4..][1..];
    SkipTo(ts, 0xB2, 3);
    SkipTo(ts, 0x5378, 4);
    SkipTo(ts, 0xEA, 5);
  }

  lemma {:induction false} SkipTo(kids: seq<Element>, id: nat, i: nat)
    requires i < |kids| && kids[i].id == id && forall k :: 0 <= k < i ==> kids[k].id != id
    ensures FirstOf(kids, id) == Some(kids[i].content)
  {
    if i > 0 { SkipTo(kids[1..], id, i - 1); }
  }

  lemma CuePointBack(c: Cue)
    requires CueFits(c)
    ensures CueTarget(Element(CUE_POINT, CueContent(c)))
            == Some((c.timeTicks as nat, c.clusterPosition, c.relativePosition))
  {
    hide UintElem, Children, IsId, UintContent, CueTrack, Elem, BeValue, TrackElements;
    IndexIds();
    CuePointLength(c);
    CueTrackBack(c);
    TrackFinds(c);
    var track := Elem(CUE_TRACK_POSITIONS, CueTrack(c));
    ChildBack(CUE_TIME, c.timeTicks, track);
    ChildrenBack(CUE_TRACK_POSITIONS, CueTrack(c), []);
    Alone(track);
    ChildrenNothing();
    UintValues(c);
    var cs := [Element(CUE_TIME, UintContent(c.timeTicks)), Element(CUE_TRACK_POSITIONS, CueTrack(c))];
    assert Children(CueContent(c)) == cs;
    assert FirstOf(cs[1..], CUE_TRACK_POSITIONS) == Some(CueTrack(c));
  }

  lemma UintValues(c: Cue)
    ensures BeValue(UintContent(c.timeTicks)) == c.timeTicks
            && BeValue(UintContent(c.clusterPosition)) == c.clusterPosition
    ensures BeValue(UintContent(c.relativePosition)) == c.relativePosition
  {
    hide BeValue, BeBytes, UintSize;
    UintRoundTrip(c.timeTicks);
    UintRoundTrip(c.clusterPosition);
    UintRoundTrip(c.relativePosition);
  }

  function CueElements(plans: seq<ClusterPlan>, posWidth: nat, frameDur: u64): seq<Element>
  {
    if |plans| == 0 then []
    else
      CueElements(plans[..|plans| - 1], posWidth, frameDur)
      + [Element(CUE_POINT, CueContent(CueOf(plans[|plans| - 1], posWidth, frameDur)))]
  }

  lemma CuePointsSplit(plans: seq<ClusterPlan>, posWidth: nat, frameDur: u64, rest: seq<byte>)
    requires |plans| > 0 && CuesFit(plans, posWidth, frameDur)
    ensures var n := |plans| - 1;
            var content := CueContent(CueOf(plans[n], posWidth, frameDur));
            && CuePoints(plans, posWidth, frameDur) + rest == CuePoints(plans[..n], posWidth, frameDur)
               + (Elem(CUE_POINT, content) + rest)
            && CueElements(plans, posWidth, frameDur) == CueElements(plans[..n], posWidth, frameDur)
               + [Element(CUE_POINT, content)]
            && CuesFit(plans[..n], posWidth, frameDur) && |content| < SIZE_LIMIT
  {
    hide Elem, CueContent, CueOf, CueFits;
    var n := |plans| - 1;
    var cue := CueOf(plans[n], posWidth, frameDur);
    CueContentFits(cue);
    assert (CuePoints(plans[..n], posWidth, frameDur) + Elem(CUE_POINT, CueContent(cue))) + rest
        == CuePoints(plans[..n], posWidth, frameDur) + (Elem(CUE_POINT, CueContent(cue)) + rest);
  }

  lemma {:induction false} CuePointsBack(plans: seq<ClusterPlan>, posWidth: nat, frameDur: u64, rest: seq<byte>)
    requires CuesFit(plans, posWidth, frameDur)
    ensures Children(CuePoints(plans, posWidth, frameDur) + rest) == CueElements(plans, posWidth, frameDur)
            + Children(rest)
    decreases plans
  {
    hide Elem, CueContent, CueOf, Children, IsId, CueFits, CuesFit;
    if |plans| == 0 {
      assert [] + rest == rest;
    } else {
      hide CuePoints, CueElements;
      var n := |plans| - 1;
      var content := CueContent(CueOf(plans[n], posWidth, frameDur));
      CuePointsSplit(plans, posWidth, frameDur, rest);
      CuePointsBack(plans[..n], posWidth, frameDur, Elem(CUE_POINT, content) + rest);
      IndexIds();
      ChildrenBack(CUE_POINT, content, rest);
      assert CueElements(plans[..n], posWidth, frameDur) + ([Element(CUE_POINT, content)] + Children(rest))
          == CueElements(plans, posWidth, frameDur) + Children(rest);
    }
  }

  lemma CueContentFits(c: Cue)
    requires CueFits(c)
    ensures |CueContent(c)| < SIZE_LIMIT && IsId(CUE_POINT)
  {
    hide CueContent, CueTrack, CuePoint, Head, UintSize, CuePointSize;
    CuePointLength(c);
  }

  lemma {:induction false} CueTargetsConcat(a: seq<Element>, b: seq<Element>)
    ensures CueTargets(a + b) == CueTargets(a) + CueTargets(b)
    decreases a
  {
    hide CueTarget;
    if |a| == 0 {
      assert a + b == b;
    } else {
      assert (a + b)[1..] == a[1..] + b;
      CueTargetsConcat(a[1..], b);
    }
  }

  /** Time, Position and first block's offset of each cluster. */
  function Entries(plans: seq<ClusterPlan>, posWidth: nat, frameDur: u64): seq<(nat, nat, nat)>
  {
    seq(|plans|, c requires 0 <= c < |plans| =>
      (plans[c].ts as nat, plans[c].position, CueOf(plans[c], posWidth, frameDur).relativePosition))
  }

  lemma {:induction false} CueElementsBack(plans: seq<ClusterPlan>, posWidth: nat, frameDur: u64)
    requires CuesFit(plans, posWidth, frameDur)
    ensures CueTargets(CueElements(plans, posWidth, frameDur)) == Entries(plans, posWidth, frameDur)
    decreases plans
  {
    hide CueTarget, CueContent, CueFits, UintSize, PrevOctets;
    if |plans| > 0 {
      var n := |plans| - 1;
      var last := [Element(CUE_POINT, CueContent(CueOf(plans[n], posWidth, frameDur)))];
      CueElementsBack(plans[..n], posWidth, frameDur);
      CueTargetsConcat(CueElements(plans[..n], posWidth, frameDur), last);
      CuePointBack(CueOf(plans[n], posWidth, frameDur));
      assert CueTargets(last[1..]) == [];
    }
  }

  /** A player reading the written Cues gets one entry per cluster: its time, Position and first block's offset. */
  lemma CuesRoundTrip(plans: seq<ClusterPlan>, posWidth: nat, frameDur: u64, rest: seq<byte>)
    requires CuesFit(plans, posWidth, frameDur) && CRC_ELEMENT_LEN
             + CuePointsSize(plans, posWidth, frameDur) < SIZE_LIMIT
    ensures CuesOf(Cues(plans, posWidth, frameDur) + rest) == Entries(plans, posWidth, frameDur)
  {
    hide Elem, Children, CuePoints, CuesFit, ReadElement, Crc32, CuePointsSize, Entries;
    var body := CuePoints(plans, posWidth, frameDur);
    IndexIds();
    CuesFacts(plans, posWidth, frameDur, CRC_ELEMENT_LEN + CuePointsSize(plans, posWidth, frameDur));
    ReadElementBack(CUES_ID, Sealed(body), rest);
    SealedBack(body);
    CuePointsBack(plans, posWidth, frameDur, []);
    Alone(body);
    ChildrenNothing();
    var crc := Element(CRC_ID, LeBytes(Crc32(body)));
    var cs := CueElements(plans, posWidth, frameDur);
    assert cs + [] == cs;
    CueTargetsConcat([crc], cs);
    CueElementsBack(plans, posWidth, frameDur);
    assert CueTarget(crc) == None;
    assert [crc][1..] == [];
  }

  // ---- following the index in a finished file

  /** A cluster holding `blocks`. */
  function ClusterContent(plan: ClusterPlan, posWidth: nat, blocks: seq<byte>): seq<byte>
  {
    Sealed(ClusterFields(plan.ts, plan.position, posWidth, plan.prevSize) + blocks)
  }

  function ClusterBytes(plan: ClusterPlan, posWidth: nat, blocks: seq<byte>): seq<byte>
  {
    Elem(CLUSTER_ID, ClusterContent(plan, posWidth, blocks))
  }

  /** Filled with the planned blocks a cluster takes its planned size, and they start at the cue's relative position. */
  lemma ClusterBytesLength(plan: ClusterPlan, posWidth: nat, frameDur: u64, blocks: seq<byte>)
    requires posWidth <= 8 && plan.prevSize < U64_LIMIT && |blocks| == BlocksOf(plan)
    ensures |ClusterContent(plan, posWidth, blocks)|
            == ClusterContentSize(plan.ts, BlocksOf(plan), posWidth, plan.prevSize)
    ensures |ClusterBytes(plan, posWidth, blocks)| == ClusterSize(plan.ts, BlocksOf(plan), posWidth, plan.prevSize)
    ensures var relative := CueOf(plan, posWidth, frameDur).relativePosition;
            relative <= |ClusterContent(plan, posWidth, blocks)|
                && ClusterContent(plan, posWidth, blocks)[relative..] == blocks
  {
    hide ClusterFields, Crc32, CrcElem, UintSize, VintSize, IdSize, PrevOctets;
    FieldsLength(plan.ts, plan.position, posWidth, plan.prevSize);
    KnownIds();
  }

  lemma SegmentFront(h: HeaderParts, lay: Layout, plans: seq<ClusterPlan>, regions: seq<seq<byte>>)
    ensures At(SegmentBytes(h, lay, plans, regions), 0, SeekHead(lay.seek))
  {
    hide Join, SeekHead, InfoElem, TracksElem, TagsElem, ChaptersElem, Cues, At;
    HeaderLands(h, lay, plans, regions, 0);
    assert HeaderElems(h, lay, plans)[..0] == [];
    NoParts();
  }

  lemma NoParts()
    ensures Join([]) == []
  {}

  lemma ElementAt(segment: seq<byte>, position: nat, id: nat, content: seq<byte>)
    requires At(segment, position, Elem(id, content)) && IsId(id) && |segment| < SIZE_LIMIT
    ensures Leads(segment, position, id)
    ensures ReadElement(segment[position..]).value.0 == Element(id, content)
  {
    hide Elem, IsId, ReadElement;
    ElemLonger(id, content);
    ReadElementBack(id, content, segment[position + |Elem(id, content)|..]);
  }

  /** A reader positioned there meets an element with that ID. */
  ghost predicate Leads(segment: seq<byte>, position: nat, id: nat)
  {
    position <= |segment| && ReadElement(segment[position..]).Some? && ReadElement(segment[position..]).value.0.id == id
  }

  lemma SeekListCases(t: SeekTable, id: nat, position: nat)
    requires (id, position) in SeekList(t)
    ensures || (id == INFO_ID && position == t.info) || (id == TRACKS_ID && position == t.tracks)
            || (id == CHAPTERS_ID && t.chapters == Some(position)) || (id == CUES_ID && position == t.cues)
               || (id == TAGS_ID && position == t.tags)
  {}

  lemma HeaderElements(h: HeaderParts, lay: Layout, plans: seq<ClusterPlan>)
    ensures InfoElem(h) == Elem(INFO_ID, h.info) && TracksElem(h) == Elem(TRACKS_ID, h.tracks)
            && TagsElem(h) == Elem(TAGS_ID, h.tags)
    ensures h.atoms != [] ==> ChaptersElem(h) == Elem(CHAPTERS_ID, ChaptersContent(h.editionUid, h.atoms))
    ensures Cues(plans, lay.posWidth, lay.frameDur)
            == Elem(CUES_ID, Sealed(CuePoints(plans, lay.posWidth, lay.frameDur)))
  {
    hide Elem, ChaptersContent, Sealed, CuePoints;
  }

  /** The SeekHead reads back as the layout's table, and every position in it leads to an element with the ID stated. */
  lemma SeekHeadFinds(h: HeaderParts, clusters: seq<ClusterPlan>, frameDur: u64, sol: Triple, lay: Layout,
                      plans: seq<ClusterPlan>,
                      regions: seq<seq<byte>>, id: nat, position: nat)
    requires LaidOut(h, clusters, frameDur, sol, lay, plans) && Sized(plans, regions)
    ensures var segment := SegmentBytes(h, lay, plans, regions);
            && SeekHeadOf(segment) == SeekList(lay.seek)
            && ((id, position) in SeekHeadOf(segment) ==> Leads(segment, position, id))
  {
    hide *;
    var segment := SegmentBytes(h, lay, plans, regions);
    SeekHeadAtFront(h, clusters, frameDur, sol, lay, plans, regions);
    if (id, position) in SeekList(lay.seek) {
      SeekListCases(lay.seek, id, position);
      SeekHeadLands(h, clusters, frameDur, sol, lay, plans, regions);
      HeaderElements(h, lay, plans);
      KnownIds();
      if id == INFO_ID && position == lay.seek.info { ElementAt(segment, position, INFO_ID, h.info); }
      else if id == TRACKS_ID && position == lay.seek.tracks { ElementAt(segment, position, TRACKS_ID, h.tracks); }
      else if id == CHAPTERS_ID && lay.seek.chapters == Some(position) {
        ElementAt(segment, position, CHAPTERS_ID, ChaptersContent(h.editionUid, h.atoms));
      } else if id == CUES_ID && position == lay.seek.cues {
        ElementAt(segment, position, CUES_ID, Sealed(CuePoints(plans, lay.posWidth, lay.frameDur)));
      } else { ElementAt(segment, position, TAGS_ID, h.tags); }
    }
  }

  lemma SeekHeadAtFront(h: HeaderParts, clusters: seq<ClusterPlan>, frameDur: u64, sol: Triple, lay: Layout,
                        plans: seq<ClusterPlan>,
                        regions: seq<seq<byte>>)
    requires LaidOut(h, clusters, frameDur, sol, lay, plans) && Sized(plans, regions)
    ensures var segment := SegmentBytes(h, lay, plans, regions);
            SeekHeadOf(segment) == SeekList(lay.seek) && |segment| < SIZE_LIMIT
  {
    hide LaidOut, SeekHead, Sized, SeekHeadOf, SegmentBytes, SeekFits, CuesFit, Sizes, Sum, SeekList, HeaderBytes,
        FileSize;
    var segment := SegmentBytes(h, lay, plans, regions);
    LaidOutFits(h, clusters, frameDur, sol, lay, plans);
    SegmentFront(h, lay, plans, regions);
    SeekHeadRoundTrip(lay.seek, segment[|SeekHead(lay.seek)|..]);
    assert segment[0..] == segment;
    FileLength(h, clusters, frameDur, sol, lay, plans, regions);
    ContentIs(h, clusters, frameDur, sol, lay, plans);
  }

  /**
   * The Cues read back as one entry per cluster, and entry `c` leads to cluster `c`: its position to
   * the Cluster element, its relative position to the cluster's first block.
   */
  lemma CuesFind(h: HeaderParts, clusters: seq<ClusterPlan>, frameDur: u64, sol: Triple, lay: Layout,
                 plans: seq<ClusterPlan>,
                 blocks: seq<seq<byte>>, c: nat)
    requires LaidOut(h, clusters, frameDur, sol, lay, plans) && c < |plans| == |blocks|
    requires forall k :: 0 <= k < |plans| ==> |blocks[k]| == BlocksOf(plans[k])
    ensures var segment := SegmentBytes(h, lay, plans, ClusterRegions(plans, lay.posWidth, blocks));
            && lay.seek.cues <= |segment| && CuesOf(segment[lay.seek.cues..])
               == Entries(plans, lay.posWidth, lay.frameDur)
            && CueLeads(segment, Entries(plans, lay.posWidth, lay.frameDur)[c], blocks[c])
  {
    hide *;
    var regions := ClusterRegions(plans, lay.posWidth, blocks);
    var segment := SegmentBytes(h, lay, plans, regions);
    RegionsSized(h, clusters, frameDur, sol, lay, plans, blocks);
    CuesAtOffset(h, clusters, frameDur, sol, lay, plans, regions);
    RegionOf(plans, lay.posWidth, blocks, c);
    PlanCount(h, clusters, frameDur, sol, lay, plans);
    LaidOutFits(h, clusters, frameDur, sol, lay, plans);
    SeekHeadAtFront(h, clusters, frameDur, sol, lay, plans, regions);
    ClusterLands(h, clusters, frameDur, sol, lay, plans, regions, c);
    KnownIds();
    ElementAt(segment, plans[c].position, CLUSTER_ID, ClusterContent(plans[c], lay.posWidth, blocks[c]));
    LimitOrder();
    ClusterBytesLength(plans[c], lay.posWidth, lay.frameDur, blocks[c]);
    EntryLeads(segment, plans, lay.posWidth, lay.frameDur, c, blocks[c]);
  }

  lemma LimitOrder()
    ensures SIZE_LIMIT < U64_LIMIT
  {}

  /** The clusters of a file, each holding its blocks. */
  function ClusterRegions(plans: seq<ClusterPlan>, posWidth: nat, blocks: seq<seq<byte>>): (s: seq<seq<byte>>)
    requires |plans| == |blocks|
    ensures |s| == |plans|
  {
    seq(|plans|, c requires 0 <= c < |plans| => ClusterBytes(plans[c], posWidth, blocks[c]))
  }

  lemma RegionOf(plans: seq<ClusterPlan>, posWidth: nat, blocks: seq<seq<byte>>, c: nat)
    requires c < |plans| == |blocks|
    ensures ClusterRegions(plans, posWidth, blocks)[c]
            == Elem(CLUSTER_ID, ClusterContent(plans[c], posWidth, blocks[c]))
  {
    hide Elem, ClusterContent;
  }

  /** The entry's position leads to a cluster, its relative position within it to `first`. */
  ghost predicate CueLeads(segment: seq<byte>, entry: (nat, nat, nat), first: seq<byte>)
  {
    && Leads(segment, entry.1, CLUSTER_ID)
    && var content := ReadElement(segment[entry.1..]).value.0.content;
       entry.2 <= |content| && content[entry.2..] == first
  }

  lemma EntryLeads(segment: seq<byte>, plans: seq<ClusterPlan>, posWidth: nat, frameDur: u64, c: nat, first: seq<byte>)
    requires c < |plans| && Leads(segment, plans[c].position, CLUSTER_ID)
    requires var content := ReadElement(segment[plans[c].position..]).value.0.content;
             var relative := CueOf(plans[c], posWidth, frameDur).relativePosition;
             relative <= |content| && content[relative..] == first
    ensures CueLeads(segment, Entries(plans, posWidth, frameDur)[c], first)
  {
    hide ReadElement, CueOf;
  }

  lemma RegionsSized(h: HeaderParts, clusters: seq<ClusterPlan>, frameDur: u64, sol: Triple, lay: Layout,
                     plans: seq<ClusterPlan>,
                     blocks: seq<seq<byte>>)
    requires LaidOut(h, clusters, frameDur, sol, lay, plans) && |plans| == |blocks|
    requires forall k :: 0 <= k < |plans| ==> |blocks[k]| == BlocksOf(plans[k])
    ensures Sized(plans, ClusterRegions(plans, lay.posWidth, blocks))
  {
    hide LaidOut, ClusterBytes, ClusterSize, CuesFit, SeekFits, Sizes, Sum;
    LaidOutFits(h, clusters, frameDur, sol, lay, plans);
    forall c | 0 <= c < |plans| ensures |ClusterBytes(plans[c], lay.posWidth, blocks[c])| == plans[c].size {
      ClusterBytesLength(plans[c], lay.posWidth, frameDur, blocks[c]);
      PlanCount(h, clusters, frameDur, sol, lay, plans);
      PlanAt(h, clusters, frameDur, sol, lay, plans, c);
      SizeAt(clusters, sol.posWidth, c);
      SameBlocks(plans[c], clusters[c]);
    }
  }

  lemma SameBlocks(p: ClusterPlan, q: ClusterPlan)
    requires p.(size := 0, prevSize := 0, position := 0) == q.(size := 0, prevSize := 0, position := 0)
    ensures BlocksOf(p) == BlocksOf(q) && p.ts == q.ts
  {}

  lemma CuesAtOffset(h: HeaderParts, clusters: seq<ClusterPlan>, frameDur: u64, sol: Triple, lay: Layout,
                     plans: seq<ClusterPlan>,
                     regions: seq<seq<byte>>)
    requires LaidOut(h, clusters, frameDur, sol, lay, plans)
    ensures var segment := SegmentBytes(h, lay, plans, regions);
            lay.seek.cues <= |segment| && CuesOf(segment[lay.seek.cues..]) == Entries(plans, lay.posWidth, lay.frameDur)
  {
    hide LaidOut, Cues, CuesOf, SegmentBytes, SeekFits, CuesFit, Entries, CuePointsSize, SeekHead, InfoElem,
        TracksElem, TagsElem, ChaptersElem, UintSize;
    hide HeaderElems;
    var segment := SegmentBytes(h, lay, plans, regions);
    WriteFacts(h, clusters, frameDur, sol, lay, plans);
    SeekHeadLands(h, clusters, frameDur, sol, lay, plans, regions);
    var cues := Cues(plans, lay.posWidth, lay.frameDur);
    CuesRoundTrip(plans, lay.posWidth, lay.frameDur, segment[lay.seek.cues + |cues|..]);
  }

  // ---- the chapters of a finished file

  lemma FieldsBehind()
    ensures |EBML_FIELDS| == 35 && |EBML_HEADER| == 40 && EBML_HEADER[5..] == EBML_FIELDS
    ensures EBML_HEADER == [0x1A, 0x45, 0xDF, 0xA3, 0xA3] + EBML_FIELDS
  {}

  lemma HeaderIsElem()
    ensures |EBML_HEADER| == 40 && EBML_HEADER == Elem(EBML_MAGIC, EBML_HEADER[5..])
  {
    hide *;
    FieldsBehind();
    MagicId();
    SmallVint(35);
    ElemIs(EBML_MAGIC, EBML_FIELDS);
    assert [0x1A, 0x45, 0xDF, 0xA3] + [128 + 35] + EBML_FIELDS == [0x1A, 0x45, 0xDF, 0xA3, 0xA3] + EBML_FIELDS;
  }

  lemma ElemIs(id: nat, content: seq<byte>)
    ensures Elem(id, content) == Id(id) + Vint(|content|) + content
  {
    hide Id, Vint;
  }

  lemma MagicId()
    ensures Id(EBML_MAGIC) == [0x1A, 0x45, 0xDF, 0xA3]
  {
    hide IdSize;
    IdBits(EBML_MAGIC);
    var v := EBML_MAGIC;
    assert BeBytes(v, 4) == BeBytes(v / 256, 3) + [v % 256];
    assert BeBytes(v / 256, 3) == BeBytes(v / 65536, 2) + [(v / 256) % 256];
    assert BeBytes(v / 65536, 2) == BeBytes(v / 16777216, 1) + [(v / 65536) % 256];
  }

  lemma JoinSix(a: seq<byte>, b: seq<byte>, c: seq<byte>, d: seq<byte>, e: seq<byte>, f: seq<byte>)
    ensures Join([a, b, c, d, e, f]) == (a + (b + c)) + d + (e + f)
  {
    var all := [a, b, c, d, e, f];
    assert all == [a] + [b] + [c] + [d] + [e] + [f];
    JoinSnoc([], a);
    JoinSnoc([a], b);
    JoinSnoc([a] + [b], c);
    JoinSnoc([a] + [b] + [c], d);
    JoinSnoc([a] + [b] + [c] + [d], e);
    JoinSnoc([a] + [b] + [c] + [d] + [e], f);
    assert [] + [a] == [a];
    NoParts();
    assert [] + a == a;
  }

  lemma ConcatThree(a: Element, b: Element, c: Element)
    ensures Concat([a, b, c]) == Elem(a.id, a.content) + (Elem(b.id, b.content) + Elem(c.id, c.content))
  {
    hide Elem;
    var es := [a, b, c];
    assert es[1..] == [b, c] && [b, c][1..] == [c] && [c][1..] == [];
    assert Concat([c]) == Elem(c.id, c.content) + Concat([]);
    assert Concat([b, c]) == Elem(b.id, b.content) + Concat([c]);
    assert Concat(es) == Elem(a.id, a.content) + Concat([b, c]);
  }

  /** The file is the EBML header and one segment, its chapters behind SeekHead, Info and Tracks. */
  lemma FileIsSegment(h: HeaderParts, lay: Layout, plans: seq<ClusterPlan>, rest: seq<byte>)
    requires h.atoms != []
    ensures var seek := Sealed(SeekEntries(SeekList(lay.seek)));
            var before := [Element(SEEK_HEAD_ID, seek), Element(INFO_ID, h.info), Element(TRACKS_ID, h.tracks)];
            Join(HeaderElems(h, lay, plans)) + rest
            == Concat(before) + Elem(CHAPTERS_ID, ChaptersContent(h.editionUid, h.atoms))
                + (TagsElem(h) + Cues(plans, lay.posWidth, lay.frameDur) + rest)
  {
    hide Elem, Sealed, Join, Concat, ChaptersContent, TagsElem, Cues, SeekEntries, SeekList;
    var a, b, c := SeekHead(lay.seek), InfoElem(h), TracksElem(h);
    var d, e, f := ChaptersElem(h), TagsElem(h), Cues(plans, lay.posWidth, lay.frameDur);
    JoinSix(a, b, c, d, e, f);
    ConcatThree(Element(SEEK_HEAD_ID, Sealed(SeekEntries(SeekList(lay.seek)))), Element(INFO_ID, h.info),
                Element(TRACKS_ID, h.tracks));
    assert ((a + (b + c)) + d + (e + f)) + rest == (a + (b + c)) + d + ((e + f) + rest);
  }

  /** Reading the chapter languages of a finished file gives those of the chapters it was made with. */
  lemma FileChapters(h: HeaderParts, clusters: seq<ClusterPlan>, frameDur: u64, sol: Triple, lay: Layout,
                     plans: seq<ClusterPlan>,
                     regions: seq<seq<byte>>)
    requires LaidOut(h, clusters, frameDur, sol, lay, plans) && Sized(plans, regions) && h.atoms != []
    ensures LangsOf(HeaderBytes(h, lay, plans) + Join(regions)) == TaggedAtoms(h.atoms, 0)
  {
    hide *;
    HeaderIsElem();
    var doc := EBML_HEADER[5..];
    var seek := Sealed(SeekEntries(SeekList(lay.seek)));
    var before := [Element(SEEK_HEAD_ID, seek), Element(INFO_ID, h.info), Element(TRACKS_ID, h.tracks)];
    var after := TagsElem(h) + Cues(plans, lay.posWidth, lay.frameDur) + Join(regions);
    var body := Concat(before) + Elem(CHAPTERS_ID, ChaptersContent(h.editionUid, h.atoms)) + after;
    FileIsSegment(h, lay, plans, Join(regions));
    SegmentParts(h, clusters, frameDur, sol, lay, plans, regions, body);
    BeforeWritable(h, lay, body, before, ChaptersContent(h.editionUid, h.atoms), after);
    LimitAbove40();
    ChaptersComeBack(doc, before, h.editionUid, h.atoms, after);
  }

  lemma LimitAbove40()
    ensures 40 < SIZE_LIMIT && |EBML_HEADER[5..]| == 35
  {}

  lemma SegmentParts(h: HeaderParts, clusters: seq<ClusterPlan>, frameDur: u64, sol: Triple, lay: Layout,
                     plans: seq<ClusterPlan>,
                     regions: seq<seq<byte>>, body: seq<byte>)
    requires LaidOut(h, clusters, frameDur, sol, lay, plans) && Sized(plans, regions)
    requires body == Join(HeaderElems(h, lay, plans)) + Join(regions)
    ensures |body| < SIZE_LIMIT && HeaderBytes(h, lay, plans) + Join(regions) == EBML_HEADER + Elem(SEGMENT, body)
  {
    hide LaidOut, Join, HeaderElems, Head, Sizes, Sum, FileSize;
    FileLength(h, clusters, frameDur, sol, lay, plans, regions);
    ContentIs(h, clusters, frameDur, sol, lay, plans);
    var front, elems := Head(SEGMENT_ID, lay.segmentContent), Join(HeaderElems(h, lay, plans));
    assert (EBML_HEADER + front + elems) + Join(regions) == EBML_HEADER + (front + (elems + Join(regions)));
  }

  lemma BeforeWritable(h: HeaderParts, lay: Layout, body: seq<byte>, before: seq<Element>, chapters: seq<byte>,
                       after: seq<byte>)
    requires before == [Element(SEEK_HEAD_ID, Sealed(SeekEntries(SeekList(lay.seek)))), Element(INFO_ID, h.info),
                        Element(TRACKS_ID, h.tracks)]
    requires body == Concat(before) + Elem(CHAPTERS_ID, chapters) + after && |body| < SIZE_LIMIT
    ensures forall e :: e in before ==> Writable(e.id, e.content) && e.id != CLUSTER && e.id != CHAPTERS_ID
  {
    hide Elem, Sealed, Concat, SeekEntries, SeekList, IsId;
    KnownIds();
    ConcatThree(before[0], before[1], before[2]);
    ElemLonger(before[0].id, before[0].content);
    ElemLonger(before[1].id, before[1].content);
    ElemLonger(before[2].id, before[2].content);
    ThreeLengths(before[0], before[1], before[2], Elem(CHAPTERS_ID, chapters) + after);
  }

  lemma ThreeLengths(a: Element, b: Element, c: Element, rest: seq<byte>)
    ensures |Concat([a, b, c])| == |Elem(a.id, a.content)| + |Elem(b.id, b.content)| + |Elem(c.id, c.content)|
  {
    hide Elem, Concat;
    ConcatThree(a, b, c);
  }
}
