/**
 * Reading a finished file as a player does: its index, its header elements and every packet of every
 * cluster come back.
 */
module FileRead {
  import opened Bytes
  import opened Ebml
  import opened EbmlRead
  import opened Crc
  import opened Chapters
  import opened ChapterRead
  import opened ChapterBack
  import opened Ranges
  import opened Timestamps
  import opened ClusterPlans
  import opened Layouts
  import opened Headers
  import opened HeaderWrite
  import opened MatroskaFiles
  import opened Indexes
  import opened BlockRead
  import opened ClusterBuild
  import opened ClusterOrder
  import opened ClusterRead
  import opened Muxer
  import Identifiers
  import Schedules

  // ---- the reader

  datatype File = File(seek: seq<(nat, nat)>, info: Option<seq<byte>>, tracks: Option<seq<byte>>,
                       edition: Option<Edition>, tags: Option<seq<byte>>, cues: seq<(nat, nat, nat)>,
                       clusters: seq<Cluster>)

  function Seeks(e: Option<seq<byte>>): seq<(nat, nat)>
  {
    match e case Some(s) => SeekTargets(Children(s)) case None => []
  }

  function CueList(e: Option<seq<byte>>): seq<(nat, nat, nat)>
  {
    match e case Some(s) => CueTargets(Children(s)) case None => []
  }

  function EditionOf(e: Option<seq<byte>>): Option<Edition>
  {
    match e case Some(s) => ReadChapters(s) case None => None
  }

  ghost function ReadClusters(kids: seq<Element>): seq<Cluster>
  {
    if |kids| == 0 then []
    else (if kids[0].id == 0x1F43_B675 then [ReadCluster(kids[0].content)] else []) + ReadClusters(kids[1..])
  }

  ghost function ReadSegment(kids: seq<Element>): File
  {
    File(Seeks(FirstOf(kids, 0x114D_9B74)), FirstOf(kids, 0x1549_A966), FirstOf(kids, 0x1654_AE6B),
         EditionOf(FirstOf(kids, 0x1043_A770)), FirstOf(kids, 0x1254_C367), CueList(FirstOf(kids, 0x1C53_BB6B)),
         ReadClusters(kids))
  }

  /** A document of the EBML header and one segment: section 4.5 of RFC 9559. */
  ghost function ReadFile(buf: seq<byte>): Option<File>
  {
    var top := Children(buf);
    if |top| == 2 && top[0].id == 0x1A45_DFA3 && top[1].id == 0x1853_8067
    then Some(ReadSegment(Children(top[1].content))) else None
  }

  // ---- lists of elements

  lemma {:induction false} ConcatMore(a: seq<Element>, b: seq<Element>)
    ensures Concat(a + b) == Concat(a) + Concat(b)
  {
    hide Elem;
    if |a| == 0 {
      assert a + b == b;
    } else {
      assert (a + b)[1..] == a[1..] + b;
      ConcatMore(a[1..], b);
    }
  }

  lemma ConcatOne(e: Element)
    ensures Concat([e]) == Elem(e.id, e.content)
  {
    hide Elem;
    assert [e][1..] == [];
    assert Concat([]) == [];
  }

  /** Written one after another, elements are the children. */
  lemma {:induction false} AllBack(es: seq<Element>)
    requires |Concat(es)| < SIZE_LIMIT && forall e :: e in es ==> IsId(e.id)
    ensures Children(Concat(es)) == es
  {
    hide Elem, IsId, ReadElement;
    if |es| == 0 {
      NothingMore([]);
    } else {
      var e := es[0];
      assert e in es;
      ElemLonger(e.id, e.content);
      ChildrenBack(e.id, e.content, Concat(es[1..]));
      AllBack(es[1..]);
    }
  }

  /** Parts that are elements. */
  lemma {:induction false} JoinIsConcat(parts: seq<seq<byte>>, es: seq<Element>)
    requires |parts| == |es| && forall i :: 0 <= i < |es| ==> parts[i] == Elem(es[i].id, es[i].content)
    ensures Join(parts) == Concat(es)
  {
    hide Elem;
    if |es| > 0 {
      var n := |es| - 1;
      JoinIsConcat(parts[..n], es[..n]);
      assert es == es[..n] + [es[n]];
      ConcatMore(es[..n], [es[n]]);
      ConcatOne(es[n]);
    }
  }

  // ---- the segment's children

  function ChaptersKids(h: HeaderParts): seq<Element>
  {
    if h.atoms == [] then [] else [Element(CHAPTERS_ID, ChaptersContent(h.editionUid, h.atoms))]
  }

  function HeaderKids(h: HeaderParts, lay: Layout, plans: seq<ClusterPlan>): seq<Element>
  {
    [Element(SEEK_HEAD_ID, Sealed(SeekEntries(SeekList(lay.seek)))), Element(INFO_ID, h.info),
     Element(TRACKS_ID, h.tracks)]
    + (ChaptersKids(h)
       + [Element(TAGS_ID, h.tags), Element(CUES_ID, Sealed(CuePoints(plans, lay.posWidth, lay.frameDur)))])
  }

  function ClusterKids(plans: seq<ClusterPlan>, posWidth: nat, blocks: seq<seq<byte>>): (s: seq<Element>)
    requires |plans| == |blocks|
    ensures |s| == |plans|
  {
    seq(|plans|, c requires 0 <= c < |plans| => Element(CLUSTER_ID, ClusterContent(plans[c], posWidth, blocks[c])))
  }

  lemma SixConcat(a: Element, b: Element, c: Element, d: seq<Element>, e: Element, f: Element)
    ensures Concat([a, b, c] + (d + [e, f]))
         == (Elem(a.id, a.content) + (Elem(b.id, b.content) + Elem(c.id, c.content))) + Concat(d)
            + (Elem(e.id, e.content) + Elem(f.id, f.content))
  {
    hide Elem, Concat;
    ConcatMore([a, b, c], d + [e, f]);
    ConcatMore(d, [e, f]);
    ConcatThree(a, b, c);
    assert [e, f] == [e] + [f];
    ConcatMore([e], [f]);
    ConcatOne(e);
    ConcatOne(f);
    var front, last := Concat([a, b, c]), Concat([e, f]);
    assert (front + Concat(d)) + last == front + (Concat(d) + last);
  }

  lemma HeaderConcat(h: HeaderParts, lay: Layout, plans: seq<ClusterPlan>)
    ensures Join(HeaderElems(h, lay, plans)) == Concat(HeaderKids(h, lay, plans))
  {
    hide *;
    var a, b, c := Element(SEEK_HEAD_ID, Sealed(SeekEntries(SeekList(lay.seek)))), Element(INFO_ID, h.info),
        Element(TRACKS_ID, h.tracks);
    var e, f := Element(TAGS_ID, h.tags), Element(CUES_ID, Sealed(CuePoints(plans, lay.posWidth, lay.frameDur)));
    HeaderParted(h, lay, plans);
    JoinSix(SeekHead(lay.seek), InfoElem(h), TracksElem(h), ChaptersElem(h), TagsElem(h),
            Cues(plans, lay.posWidth, lay.frameDur));
    SixConcat(a, b, c, ChaptersKids(h), e, f);
    ChaptersConcat(h);
    HeaderElements(h, lay, plans);
    SeekIs(lay);
  }

  lemma SeekIs(lay: Layout)
    ensures SeekHead(lay.seek) == Elem(SEEK_HEAD_ID, Sealed(SeekEntries(SeekList(lay.seek))))
  {
    hide Elem, Sealed, SeekEntries, SeekList;
  }

  lemma HeaderParted(h: HeaderParts, lay: Layout, plans: seq<ClusterPlan>)
    ensures HeaderElems(h, lay, plans)
         == [SeekHead(lay.seek), InfoElem(h), TracksElem(h), ChaptersElem(h), TagsElem(h),
             Cues(plans, lay.posWidth, lay.frameDur)]
    ensures HeaderKids(h, lay, plans)
         == [Element(SEEK_HEAD_ID, Sealed(SeekEntries(SeekList(lay.seek)))), Element(INFO_ID, h.info),
             Element(TRACKS_ID, h.tracks)]
            + (ChaptersKids(h)
               + [Element(TAGS_ID, h.tags), Element(CUES_ID, Sealed(CuePoints(plans, lay.posWidth, lay.frameDur)))])
  {
    hide SeekHead, InfoElem, TracksElem, ChaptersElem, TagsElem, Cues, Sealed, SeekEntries, SeekList, ChaptersKids,
        CuePoints;
  }

  lemma ChaptersConcat(h: HeaderParts)
    ensures Concat(ChaptersKids(h)) == ChaptersElem(h)
  {
    hide Elem, ChaptersContent;
    if h.atoms != [] { ConcatOne(Element(CHAPTERS_ID, ChaptersContent(h.editionUid, h.atoms))); }
  }

  lemma RegionsConcat(plans: seq<ClusterPlan>, posWidth: nat, blocks: seq<seq<byte>>)
    requires |plans| == |blocks|
    ensures Join(ClusterRegions(plans, posWidth, blocks)) == Concat(ClusterKids(plans, posWidth, blocks))
  {
    hide Elem, Join, Concat, ClusterContent;
    forall c | 0 <= c < |plans|
      ensures ClusterRegions(plans, posWidth, blocks)[c]
              == Elem(CLUSTER_ID, ClusterContent(plans[c], posWidth, blocks[c]))
    {
      RegionOf(plans, posWidth, blocks, c);
    }
    JoinIsConcat(ClusterRegions(plans, posWidth, blocks), ClusterKids(plans, posWidth, blocks));
  }

  lemma KidIds(h: HeaderParts, lay: Layout, plans: seq<ClusterPlan>, blocks: seq<seq<byte>>)
    requires |plans| == |blocks|
    ensures forall e :: e in HeaderKids(h, lay, plans) + ClusterKids(plans, lay.posWidth, blocks) ==> IsId(e.id)
  {
    hide *;
    HeaderKidIds(h, lay, plans);
    ClusterKidIds(plans, lay.posWidth, blocks);
  }

  lemma HeaderKidIds(h: HeaderParts, lay: Layout, plans: seq<ClusterPlan>)
    ensures forall e :: e in HeaderKids(h, lay, plans) ==> IsId(e.id)
  {
    hide Sealed, SeekEntries, SeekList, CuePoints, ChaptersContent;
  }

  lemma ClusterKidIds(plans: seq<ClusterPlan>, posWidth: nat, blocks: seq<seq<byte>>)
    requires |plans| == |blocks|
    ensures forall e :: e in ClusterKids(plans, posWidth, blocks) ==> IsId(e.id)
  {
    hide ClusterContent;
  }

  /** The file's children are the EBML header and a segment, and the segment's those written. */
  lemma FileKids(h: HeaderParts, clusters: seq<ClusterPlan>, frameDur: u64, sol: Triple, lay: Layout,
                 plans: seq<ClusterPlan>, blocks: seq<seq<byte>>)
    requires LaidOut(h, clusters, frameDur, sol, lay, plans) && |plans| == |blocks|
    requires forall k :: 0 <= k < |plans| ==> |blocks[k]| == BlocksOf(plans[k])
    ensures var kids := HeaderKids(h, lay, plans) + ClusterKids(plans, lay.posWidth, blocks);
            && |Concat(kids)| < SIZE_LIMIT && Children(Concat(kids)) == kids
            && Children(HeaderBytes(h, lay, plans) + Join(ClusterRegions(plans, lay.posWidth, blocks)))
               == [Element(EBML_MAGIC, EBML_HEADER[5..]), Element(SEGMENT, Concat(kids))]
  {
    hide *;
    var kids := HeaderKids(h, lay, plans) + ClusterKids(plans, lay.posWidth, blocks);
    var regions := ClusterRegions(plans, lay.posWidth, blocks);
    RegionsSized(h, clusters, frameDur, sol, lay, plans, blocks);
    HeaderConcat(h, lay, plans);
    RegionsConcat(plans, lay.posWidth, blocks);
    ConcatMore(HeaderKids(h, lay, plans), ClusterKids(plans, lay.posWidth, blocks));
    SegmentParts(h, clusters, frameDur, sol, lay, plans, regions, Concat(kids));
    KidIds(h, lay, plans, blocks);
    AllBack(kids);
    HeaderIsElem();
    LimitAbove40();
    TopIds();
    NothingMore(Elem(SEGMENT, Concat(kids)));
    ChildrenBack(SEGMENT, Concat(kids), []);
    ChildrenBack(EBML_MAGIC, EBML_HEADER[5..], Elem(SEGMENT, Concat(kids)));
    assert [Element(EBML_MAGIC, EBML_HEADER[5..])] + [Element(SEGMENT, Concat(kids))]
        == [Element(EBML_MAGIC, EBML_HEADER[5..]), Element(SEGMENT, Concat(kids))];
  }

  lemma TopIds()
    ensures IsId(EBML_MAGIC) && IsId(SEGMENT)
  {}

  // ---- what is found among them

  lemma {:induction false} NotAmongClusters(kids: seq<Element>, id: nat)
    requires (forall e :: e in kids ==> e.id == 0x1F43_B675) && id != 0x1F43_B675
    ensures FirstOf(kids, id) == None
  {
    if |kids| > 0 {
      assert kids[0] in kids;
      NotAmongClusters(kids[1..], id);
    }
  }

  lemma {:induction false} ClustersMore(a: seq<Element>, b: seq<Element>)
    ensures ReadClusters(a + b) == ReadClusters(a) + ReadClusters(b)
  {
    hide ReadCluster;
    if |a| == 0 {
      assert a + b == b;
    } else {
      assert (a + b)[1..] == a[1..] + b;
      ClustersMore(a[1..], b);
    }
  }

  lemma {:induction false} NoClusters(kids: seq<Element>)
    requires forall e :: e in kids ==> e.id != 0x1F43_B675
    ensures ReadClusters(kids) == []
  {
    hide ReadCluster;
    if |kids| > 0 {
      assert kids[0] in kids;
      NoClusters(kids[1..]);
    }
  }

  /** Which of the header's elements an ID finds. */
  lemma HeaderFound(h: HeaderParts, lay: Layout, plans: seq<ClusterPlan>, id: nat)
    ensures FirstOf(HeaderKids(h, lay, plans), id)
         == if id == 0x114D_9B74 then Some(Sealed(SeekEntries(SeekList(lay.seek))))
            else if id == 0x1549_A966 then Some(h.info)
            else if id == 0x1654_AE6B then Some(h.tracks)
            else if id == 0x1043_A770 && h.atoms != [] then Some(ChaptersContent(h.editionUid, h.atoms))
            else if id == 0x1254_C367 then Some(h.tags)
            else if id == 0x1C53_BB6B then Some(Sealed(CuePoints(plans, lay.posWidth, lay.frameDur)))
            else None
  {
    hide FirstOf, Sealed, SeekEntries, SeekList, CuePoints, ChaptersContent;
    var a, b, c := Element(SEEK_HEAD_ID, Sealed(SeekEntries(SeekList(lay.seek)))), Element(INFO_ID, h.info),
        Element(TRACKS_ID, h.tracks);
    var e, f := Element(TAGS_ID, h.tags), Element(CUES_ID, Sealed(CuePoints(plans, lay.posWidth, lay.frameDur)));
    assert [a, b, c] == [a] + [b, c];
    FoundConcat([a, b, c], ChaptersKids(h) + [e, f], id);
    FoundConcat(ChaptersKids(h), [e, f], id);
    FoundConcat([a], [b, c], id);
    FoundOne(a, id);
    FoundTwo(b, c, id);
    FoundTwo(e, f, id);
    FoundOne(Element(CHAPTERS_ID, ChaptersContent(h.editionUid, h.atoms)), id);
    FoundNone(id);
  }

  lemma HeaderIds(h: HeaderParts, lay: Layout, plans: seq<ClusterPlan>)
    ensures forall e :: e in HeaderKids(h, lay, plans) ==> e.id != 0x1F43_B675
  {
    hide Sealed, SeekEntries, SeekList, CuePoints, ChaptersContent;
  }

  lemma SegmentFound(h: HeaderParts, lay: Layout, plans: seq<ClusterPlan>, blocks: seq<seq<byte>>, id: nat)
    requires |plans| == |blocks| && id != 0x1F43_B675
    ensures FirstOf(HeaderKids(h, lay, plans) + ClusterKids(plans, lay.posWidth, blocks), id)
         == FirstOf(HeaderKids(h, lay, plans), id)
  {
    hide HeaderKids, FirstOf, ClusterContent;
    NotAmongClusters(ClusterKids(plans, lay.posWidth, blocks), id);
    FoundConcat(HeaderKids(h, lay, plans), ClusterKids(plans, lay.posWidth, blocks), id);
  }

  // ---- index and chapters

  lemma SeekListBack(t: SeekTable)
    requires SeekFits(t)
    ensures SeekTargets(Children(Sealed(SeekEntries(SeekList(t))))) == SeekList(t)
  {
    hide SeekList, ReadElement, Children, SeekEntries, Sealed, Elem, SeekFits, SeekTargets, SeekContentSize,
        SeekHeadSize;
    SeekHeadRoundTrip(t, []);
    SeekHeadLength(t);
    SeekContentSmall(t);
    IndexIds();
    SealedSmall(t);
    ReadElementBack(SEEK_HEAD_ID, Sealed(SeekEntries(SeekList(t))), []);
  }

  lemma SealedSmall(t: SeekTable)
    requires SeekFits(t)
    ensures |Sealed(SeekEntries(SeekList(t)))| < SIZE_LIMIT
  {
    hide SeekList, SeekEntries, CrcElem, Crc32, SeekFits, SeekContentSize, SeekHeadSize;
    SeekHeadLength(t);
    SeekContentSmall(t);
  }

  lemma CuesBack(plans: seq<ClusterPlan>, posWidth: nat, frameDur: u64)
    requires CuesFit(plans, posWidth, frameDur)
    requires CRC_ELEMENT_LEN + CuePointsSize(plans, posWidth, frameDur) < SIZE_LIMIT
    ensures CueTargets(Children(Sealed(CuePoints(plans, posWidth, frameDur)))) == Entries(plans, posWidth, frameDur)
  {
    hide CuesFit, ReadElement, Children, CuePoints, Elem, CueTargets, Entries, CuePointsSize, CrcElem, Crc32;
    var body := CuePoints(plans, posWidth, frameDur);
    CuesRoundTrip(plans, posWidth, frameDur, []);
    IndexIds();
    CuesFacts(plans, posWidth, frameDur, CRC_ELEMENT_LEN + CuePointsSize(plans, posWidth, frameDur));
    ReadElementBack(CUES_ID, Sealed(body), []);
  }

  // ---- the clusters

  /** What cluster `c` has to say: its plan's time and place, and the packet of every scheduled item. */
  ghost function ToldCluster(v: Video, plans: seq<ClusterPlan>, audio: seq<AudioTrack>, subs: seq<SubTrack>,
                             c: nat): Cluster
    requires PlansReady(v, plans, audio, subs) && c < |plans|
  {
    SourceReady(v, plans, audio, subs, c);
    var s := SourceAt(v, plans[c], audio, subs, c);
    BlocksAreItems(s);
    Cluster(Some(plans[c].ts as nat), Some(plans[c].position),
            if plans[c].prevSize > 0 then Some(plans[c].prevSize) else None, ToldAll(s, Scheduled(s)), true)
  }

  ghost function ToldClusters(v: Video, plans: seq<ClusterPlan>, audio: seq<AudioTrack>, subs: seq<SubTrack>,
                              n: nat): (t: seq<Cluster>)
    requires PlansReady(v, plans, audio, subs) && n <= |plans|
    ensures |t| == n
  {
    seq(n, c requires 0 <= c < n => ToldCluster(v, plans, audio, subs, c))
  }

  lemma OneClusterBack(h: HeaderParts, clusters: seq<ClusterPlan>, frameDur: u64, sol: Triple, lay: Layout,
                       v: Video, plans: seq<ClusterPlan>, audio: seq<AudioTrack>, subs: seq<SubTrack>, c: nat,
                       blocks: seq<byte>)
    requires LaidOut(h, clusters, frameDur, sol, lay, plans) && PlansReady(v, plans, audio, subs) && c < |plans|
    requires ClusterBlocks(v, plans, audio, subs, c, blocks) && |blocks| < SIZE_LIMIT
    ensures ReadCluster(ClusterContent(plans[c], lay.posWidth, blocks)) == ToldCluster(v, plans, audio, subs, c)
  {
    hide LaidOut, PlansReady, ReadCluster, ClusterContent, SourceOk, Schedules.Timed, InputsOf, PlannedTotals,
        BlocksBytes, ToldAll, Scheduled, BeValue, BeBytes, ClusterSize, AllWithin;
    SourceReady(v, plans, audio, subs, c);
    var s := SourceAt(v, plans[c], audio, subs, c);
    RegionFacts(h, clusters, frameDur, sol, lay, plans, c);
    PositionFits(h, clusters, frameDur, sol, lay, plans, c);
    ClusterBack(s, lay.posWidth);
  }

  lemma {:induction false} ClustersBack(h: HeaderParts, clusters: seq<ClusterPlan>, frameDur: u64, sol: Triple,
                                        lay: Layout, v: Video, plans: seq<ClusterPlan>, audio: seq<AudioTrack>,
                                        subs: seq<SubTrack>, blocks: seq<seq<byte>>, n: nat)
    requires LaidOut(h, clusters, frameDur, sol, lay, plans) && BlocksAre(v, plans, audio, subs, blocks)
    requires |blocks| == |plans| && n <= |plans| && forall c :: 0 <= c < |plans| ==> |blocks[c]| < SIZE_LIMIT
    ensures ReadClusters(ClusterKids(plans, lay.posWidth, blocks)[..n]) == ToldClusters(v, plans, audio, subs, n)
  {
    hide LaidOut, PlansReady, ReadCluster, ClusterContent, ClusterBlocks, ToldCluster;
    if n > 0 {
      ClustersBack(h, clusters, frameDur, sol, lay, v, plans, audio, subs, blocks, n - 1);
      var kids := ClusterKids(plans, lay.posWidth, blocks);
      assert kids[..n] == kids[..n - 1] + [kids[n - 1]];
      ClustersMore(kids[..n - 1], [kids[n - 1]]);
      OneClusterBack(h, clusters, frameDur, sol, lay, v, plans, audio, subs, n - 1, blocks[n - 1]);
      assert ReadClusters([kids[n - 1]]) == [ReadCluster(kids[n - 1].content)] + ReadClusters([kids[n - 1]][1..]);
      assert [kids[n - 1]][1..] == [];
    }
  }

  lemma {:induction false} MemberShorter(es: seq<Element>, c: nat)
    requires c < |es|
    ensures |es[c].content| <= |Concat(es)|
  {
    hide Elem;
    ElemLonger(es[0].id, es[0].content);
    if c > 0 { MemberShorter(es[1..], c - 1); }
  }

  lemma BlocksShorter(plans: seq<ClusterPlan>, posWidth: nat, blocks: seq<seq<byte>>, front: seq<Element>)
    requires |plans| == |blocks| && |Concat(front + ClusterKids(plans, posWidth, blocks))| < SIZE_LIMIT
    ensures forall c :: 0 <= c < |plans| ==> |blocks[c]| < SIZE_LIMIT
  {
    hide Concat, ClusterFields;
    ConcatMore(front, ClusterKids(plans, posWidth, blocks));
    forall c | 0 <= c < |plans| ensures |blocks[c]| < SIZE_LIMIT {
      MemberShorter(ClusterKids(plans, posWidth, blocks), c);
    }
  }

  // ---- the file

  /** The header's part of what a file has to say: what it was given, under the index laid out for it. */
  function ToldHeader(h: HeaderParts, lay: Layout, plans: seq<ClusterPlan>, clusters: seq<Cluster>): File
  {
    File(SeekList(lay.seek), Some(h.info), Some(h.tracks),
         if h.atoms == [] then None else Some(Edition(Some(h.editionUid), Some(0), Some(0), ToldAtoms(h.atoms))),
         Some(h.tags), Entries(plans, lay.posWidth, lay.frameDur), clusters)
  }

  ghost function ToldFile(h: HeaderParts, lay: Layout, v: Video, plans: seq<ClusterPlan>, audio: seq<AudioTrack>,
                          subs: seq<SubTrack>): File
    requires PlansReady(v, plans, audio, subs)
  {
    ToldHeader(h, lay, plans, ToldClusters(v, plans, audio, subs, |plans|))
  }

  /** The file as it is written, of clusters with these blocks. */
  function FileOctets(h: HeaderParts, lay: Layout, plans: seq<ClusterPlan>, blocks: seq<seq<byte>>): seq<byte>
    requires |plans| == |blocks|
  {
    HeaderBytes(h, lay, plans) + Join(ClusterRegions(plans, lay.posWidth, blocks))
  }

  /** `MuxFile` has laid the parts out and built the clusters. */
  ghost predicate Finished(h: HeaderParts, clusters: seq<ClusterPlan>, frameDur: u64, sol: Triple, lay: Layout,
                           v: Video, plans: seq<ClusterPlan>, audio: seq<AudioTrack>, subs: seq<SubTrack>,
                           blocks: seq<seq<byte>>)
  {
    && |plans| == |blocks| && PlansReady(v, plans, audio, subs)
    && LaidOut(h, clusters, frameDur, sol, lay, plans) && BlocksAre(v, plans, audio, subs, blocks)
  }

  lemma FinishedFacts(h: HeaderParts, clusters: seq<ClusterPlan>, frameDur: u64, sol: Triple, lay: Layout,
                      v: Video, plans: seq<ClusterPlan>, audio: seq<AudioTrack>, subs: seq<SubTrack>,
                      blocks: seq<seq<byte>>)
    requires Finished(h, clusters, frameDur, sol, lay, v, plans, audio, subs, blocks)
    ensures |plans| == |blocks| && PlansReady(v, plans, audio, subs)
    ensures LaidOut(h, clusters, frameDur, sol, lay, plans) && BlocksAre(v, plans, audio, subs, blocks)
  {
    hide PlansReady, LaidOut, BlocksAre;
  }

  /**
   * A player reading the file gets its SeekHead and cues, its Info, Tracks and Tags as they were given, every
   * chapter, and cluster by cluster, in the order scheduled, every packet of every track.
   */
  lemma FileComesBack(h: HeaderParts, clusters: seq<ClusterPlan>, frameDur: u64, sol: Triple, lay: Layout,
                      v: Video, plans: seq<ClusterPlan>, audio: seq<AudioTrack>, subs: seq<SubTrack>,
                      blocks: seq<seq<byte>>)
    requires Finished(h, clusters, frameDur, sol, lay, v, plans, audio, subs, blocks)
    ensures ReadFile(FileOctets(h, lay, plans, blocks)) == Some(ToldFile(h, lay, v, plans, audio, subs))
  {
    hide *;
    FinishedFacts(h, clusters, frameDur, sol, lay, v, plans, audio, subs, blocks);
    var front, rear := HeaderKids(h, lay, plans), ClusterKids(plans, lay.posWidth, blocks);
    BlockLengths(v, plans, audio, subs, blocks);
    FileKids(h, clusters, frameDur, sol, lay, plans, blocks);
    BlocksShorter(plans, lay.posWidth, blocks, front);
    ClustersBack(h, clusters, frameDur, sol, lay, v, plans, audio, subs, blocks, |plans|);
    assert rear[..|plans|] == rear;
    HeaderIds(h, lay, plans);
    NoClusters(front);
    ClustersMore(front, rear);
    assert [] + ReadClusters(rear) == ReadClusters(rear);
    LaidOutFits(h, clusters, frameDur, sol, lay, plans);
    CuesSmall(h, clusters, frameDur, sol, lay, plans);
    HeaderBack(h, lay, plans, blocks);
    HeaderIsElem();
    OctetsAre(h, lay, plans, blocks);
    SegmentIs(front + rear, EBML_HEADER[5..], FileOctets(h, lay, plans, blocks));
    ToldIs(h, lay, v, plans, audio, subs);
  }

  lemma OctetsAre(h: HeaderParts, lay: Layout, plans: seq<ClusterPlan>, blocks: seq<seq<byte>>)
    requires |plans| == |blocks|
    ensures FileOctets(h, lay, plans, blocks)
         == HeaderBytes(h, lay, plans) + Join(ClusterRegions(plans, lay.posWidth, blocks))
  {}

  lemma ToldIs(h: HeaderParts, lay: Layout, v: Video, plans: seq<ClusterPlan>, audio: seq<AudioTrack>,
               subs: seq<SubTrack>)
    requires PlansReady(v, plans, audio, subs)
    ensures ToldFile(h, lay, v, plans, audio, subs)
         == ToldHeader(h, lay, plans, ToldClusters(v, plans, audio, subs, |plans|))
  {
    hide PlansReady, ToldHeader, ToldClusters;
  }

  lemma BlockLengths(v: Video, plans: seq<ClusterPlan>, audio: seq<AudioTrack>, subs: seq<SubTrack>,
                     blocks: seq<seq<byte>>)
    requires BlocksAre(v, plans, audio, subs, blocks) && |blocks| == |plans|
    ensures forall c :: 0 <= c < |plans| ==> |blocks[c]| == BlocksOf(plans[c])
  {
    hide PlansReady, BlocksBytes, SourceOk, SourceAt;
  }

  lemma CuesSmall(h: HeaderParts, clusters: seq<ClusterPlan>, frameDur: u64, sol: Triple, lay: Layout,
                  plans: seq<ClusterPlan>)
    requires LaidOut(h, clusters, frameDur, sol, lay, plans)
    ensures CRC_ELEMENT_LEN + CuePointsSize(plans, lay.posWidth, lay.frameDur) < SIZE_LIMIT
  {
    hide *;
    WriteFacts(h, clusters, frameDur, sol, lay, plans);
  }

  lemma SegmentIs(kids: seq<Element>, doc: seq<byte>, buf: seq<byte>)
    requires Children(buf) == [Element(EBML_MAGIC, doc), Element(SEGMENT, Concat(kids))]
    requires Children(Concat(kids)) == kids
    ensures ReadFile(buf) == Some(ReadSegment(kids))
  {
    hide Children, ReadSegment, Concat;
  }

  lemma HeaderBack(h: HeaderParts, lay: Layout, plans: seq<ClusterPlan>, blocks: seq<seq<byte>>)
    requires |plans| == |blocks| && SeekFits(lay.seek) && CuesFit(plans, lay.posWidth, lay.frameDur)
    requires CRC_ELEMENT_LEN + CuePointsSize(plans, lay.posWidth, lay.frameDur) < SIZE_LIMIT
    requires |Concat(HeaderKids(h, lay, plans) + ClusterKids(plans, lay.posWidth, blocks))| < SIZE_LIMIT
    ensures var kids := HeaderKids(h, lay, plans) + ClusterKids(plans, lay.posWidth, blocks);
            ReadSegment(kids) == ToldHeader(h, lay, plans, ReadClusters(kids))
  {
    hide FirstOf, Sealed, SeekEntries, SeekList, CuePoints, ChaptersContent, HeaderKids, ClusterKids, ReadClusters,
        SeekTargets, CueTargets, Children, Entries, ReadChapters, Concat, ToldAtoms, SeekFits, CuesFit, CuePointsSize;
    SegmentFound(h, lay, plans, blocks, 0x114D_9B74); HeaderFound(h, lay, plans, 0x114D_9B74);
    SegmentFound(h, lay, plans, blocks, 0x1549_A966); HeaderFound(h, lay, plans, 0x1549_A966);
    SegmentFound(h, lay, plans, blocks, 0x1654_AE6B); HeaderFound(h, lay, plans, 0x1654_AE6B);
    SegmentFound(h, lay, plans, blocks, 0x1043_A770); HeaderFound(h, lay, plans, 0x1043_A770);
    SegmentFound(h, lay, plans, blocks, 0x1254_C367); HeaderFound(h, lay, plans, 0x1254_C367);
    SegmentFound(h, lay, plans, blocks, 0x1C53_BB6B); HeaderFound(h, lay, plans, 0x1C53_BB6B);
    SeekListBack(lay.seek);
    CuesBack(plans, lay.posWidth, lay.frameDur);
    if h.atoms != [] {
      ChaptersShorter(h, lay, plans, blocks);
      ChaptersBack(h.editionUid, h.atoms);
    }
  }

  lemma ChaptersShorter(h: HeaderParts, lay: Layout, plans: seq<ClusterPlan>, blocks: seq<seq<byte>>)
    requires |plans| == |blocks| && h.atoms != []
    requires |Concat(HeaderKids(h, lay, plans) + ClusterKids(plans, lay.posWidth, blocks))| < SIZE_LIMIT
    ensures |ChaptersContent(h.editionUid, h.atoms)| < SIZE_LIMIT
  {
    hide Concat, Sealed, SeekEntries, SeekList, CuePoints, ChaptersContent, ClusterContent;
    var kids := HeaderKids(h, lay, plans) + ClusterKids(plans, lay.posWidth, blocks);
    assert kids[3] == Element(CHAPTERS_ID, ChaptersContent(h.editionUid, h.atoms));
    MemberShorter(kids, 3);
  }

  // ---- the frames

  /**
   * Frame `i` of chunk `c` as a player gets it: on track 1, its time from the cluster's first frame, and shown
   * until the next.
   */
  lemma FrameTimes(v: Video, plans: seq<ClusterPlan>, audio: seq<AudioTrack>, subs: seq<SubTrack>, c: nat, i: nat,
                   s: Source)
    requires PlansReady(v, plans, audio, subs) && c < |plans| && c < |v.clusters| && i < |v.clusters[c]|
    requires c < |v.maps| == |v.clusters| && (v.isNal ==> c < |v.disp| && c < |v.nals|)
    requires s == SourceAt(v, plans[c], audio, subs, c)
    ensures SourceOk(s) && Schedules.Within(InputsOf(s), Schedules.Video(i)) && (v.isNal ==> i < |v.disp[c]|)
    ensures var p := Told(s, Schedules.Video(i));
            var base := FrameCount(v.clusters[..c]);
            var f := base + if v.isNal then v.disp[c][i] else i;
            && f + 1 < |v.tab| && v.tab[f] <= v.tab[f + 1] && plans[c].ts == v.tab[base]
            && p.Grouped? && p.head.track == 1 && p.head.rel == WrapI16(v.tab[f] - v.tab[base])
            && p.duration == Some((v.tab[f + 1] - v.tab[f]) as nat) && (p.reference.None? <==> i == 0)
  {
    hide PlansReady, FrameData, FrameIn, AudioOk, SubOk, PlannedTotals, Schedules.LanesWeight, FrameCount,
        Schedules.LaneTimed, FramesIn;
    SourceReady(v, plans, audio, subs, c);
    BaseOf(v, plans, audio, subs, c);
    ShownIn(s, i);
  }

  /** And its octets: the units of its extents, each of which a decoder splits off again, or its one extent. */
  lemma FrameOctets(v: Video, plans: seq<ClusterPlan>, audio: seq<AudioTrack>, subs: seq<SubTrack>, c: nat, i: nat,
                    s: Source)
    requires PlansReady(v, plans, audio, subs) && c < |plans| && c < |v.clusters| && i < |v.clusters[c]|
    requires c < |v.maps| == |v.clusters| && (v.isNal ==> c < |v.disp| && c < |v.nals|)
    requires s == SourceAt(v, plans[c], audio, subs, c)
    ensures SourceOk(s) && Schedules.Within(InputsOf(s), Schedules.Video(i))
    ensures var frame := Told(s, Schedules.Video(i)).head.frame;
            if v.isNal then
              var frames := v.clusters[c];
              && FrameHolds(frames, v.nals[c], i)
              && var own := v.nals[c][NalStart(frames, i)..NalStart(frames, i) + frames[i].offset];
                 && (forall r :: r in own ==> InRange(r, v.maps[c]))
                 && ((forall r :: r in own ==> r.len < U32_LIMIT) ==>
                       SplitFrame(frame) == seq(|own|, k requires 0 <= k < |own| => Slice(own[k], v.maps[c])))
            else InRange(v.clusters[c][i], v.maps[c]) && frame == Slice(v.clusters[c][i], v.maps[c])
  {
    hide PlansReady, FrameHolds, AudioOk, SubOk, PlannedTotals, Schedules.LanesWeight, FrameCount, FrameData,
        Schedules.LaneTimed, FramesIn, SplitFrame, NalBytes, NalOctets, Slice, InRange, NalStart;
    SourceReady(v, plans, audio, subs, c);
    ShownIn(s, i);
    if v.isNal {
      NalFacts(s, i);
      var own := v.nals[c][NalStart(v.clusters[c], i)..NalStart(v.clusters[c], i) + v.clusters[c][i].offset];
      if forall r :: r in own ==> r.len < U32_LIMIT { FrameBack(own, v.maps[c]); }
    } else {
      PlainFacts(s, i);
    }
  }

  lemma BaseOf(v: Video, plans: seq<ClusterPlan>, audio: seq<AudioTrack>, subs: seq<SubTrack>, c: nat)
    requires PlansReady(v, plans, audio, subs) && c < |plans|
    ensures c < |v.clusters| && FrameCount(v.clusters[..c]) == plans[c].baseFrame < |v.tab|
    ensures plans[c].ts == v.tab[plans[c].baseFrame]
  {
    hide AudioSplit, SubsSplit, AudioShare, SubShare, VideoSizes, FramesPresent;
    assert PlanReady(v, plans[c], audio, subs, c);
  }

  // ---- the EBML header

  lemma FourLong(a: byte, b: byte, v: byte)
    requires 0x40 <= a < 0x80
    ensures var id: int := a as int * 0x100 + b; IsId(id) && Elem(id, [v]) == [a, b, 0x81, v]
  {
    hide Id, Vint, IsId;
    Identifiers.TwoOctetId(a, b);
    SmallVint(1);
  }

  lemma DocTypeIs(name: seq<byte>)
    requires |name| == 8
    ensures IsId(0x4282) && Elem(0x4282, name) == [0x42, 0x82, 0x88] + name
  {
    hide Id, Vint, IsId;
    Identifiers.TwoOctetId(0x42, 0x82);
    SmallVint(8);
  }

  /** One such element and what follows. */
  lemma FourBack(a: byte, b: byte, v: byte, rest: seq<byte>)
    requires 0x40 <= a < 0x80
    ensures Children([a, b, 0x81, v] + rest) == [Element(a as int * 0x100 + b, [v])] + Children(rest)
  {
    hide Elem, Children, IsId;
    FourLong(a, b, v);
    ChildrenBack(a as int * 0x100 + b, [v], rest);
  }

  lemma DocTypeBack(name: seq<byte>, rest: seq<byte>)
    requires |name| == 8
    ensures Children([0x42, 0x82, 0x88] + name + rest) == [Element(0x4282, name)] + Children(rest)
  {
    hide Elem, Children, IsId;
    DocTypeIs(name);
    ChildrenBack(0x4282, name, rest);
  }

  lemma FirstFour(rest: seq<byte>)
    ensures Children([0x42, 0x86, 0x81, 1] + ([0x42, 0xF7, 0x81, 1]
                                              + ([0x42, 0xF2, 0x81, 4] + ([0x42, 0xF3, 0x81, 8] + rest))))
         == [Element(0x4286, [1]), Element(0x42F7, [1]), Element(0x42F2, [4]), Element(0x42F3, [8])] + Children(rest)
  {
    hide Children;
    var c := [0x42, 0xF3, 0x81, 8] + rest;
    var b := [0x42, 0xF2, 0x81, 4] + c;
    FourBack(0x42, 0xF3, 8, rest);
    FourBack(0x42, 0xF2, 4, c);
    FourBack(0x42, 0xF7, 1, b);
    FourBack(0x42, 0x86, 1, [0x42, 0xF7, 0x81, 1] + b);
  }

  lemma LastTwo()
    ensures Children([0x42, 0x87, 0x81, 4] + [0x42, 0x85, 0x81, 2]) == [Element(0x4287, [4]), Element(0x4285, [2])]
  {
    hide Children;
    var last: seq<byte> := [0x42, 0x85, 0x81, 2];
    NothingMore(last);
    FourBack(0x42, 0x85, 2, []);
    FourBack(0x42, 0x87, 4, last);
  }

  /**
   * The EBML header: version and read version 1, identifiers of up to 4 octets and sizes of up to 8, a "matroska"
   * document of version 4 that readers of version 2 can read: section 11.2 of RFC 8794.
   */
  lemma DocumentBack(name: seq<byte>)
    requires name == [0x6D, 0x61, 0x74, 0x72, 0x6F, 0x73, 0x6B, 0x61]
    ensures |EBML_HEADER| == 40
    ensures Children(EBML_HEADER[5..])
         == [Element(0x4286, [1]), Element(0x42F7, [1]), Element(0x42F2, [4]), Element(0x42F3, [8])]
            + ([Element(0x4282, name)] + [Element(0x4287, [4]), Element(0x4285, [2])])
  {
    hide Children;
    FieldsBehind();
    var last: seq<byte> := [0x42, 0x87, 0x81, 4] + [0x42, 0x85, 0x81, 2];
    FirstFour([0x42, 0x82, 0x88] + name + last);
    DocTypeBack(name, last);
    LastTwo();
  }
}
