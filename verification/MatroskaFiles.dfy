/** The whole file: header, clusters, and that every stated position is where its element lands. */
module MatroskaFiles {
  import opened Bytes
  import opened Ebml
  import opened Crc
  import opened Chapters
  import opened ClusterPlans
  import opened Layouts
  import opened Headers
  import opened HeaderWrite

  /** The EBML header: its identifier and length, then its fields. */
  const EBML_HEADER: seq<byte> := [0x1A, 0x45, 0xDF, 0xA3, 0xA3] + EBML_FIELDS

  const EBML_FIELDS: seq<byte> :=
    [0x42, 0x86, 0x81, 0x01] + ([0x42, 0xF7, 0x81, 0x01] + ([0x42, 0xF2, 0x81, 0x04] + ([0x42, 0xF3, 0x81, 0x08]
    + ([0x42, 0x82, 0x88] + [0x6D, 0x61, 0x74, 0x72, 0x6F, 0x73, 0x6B, 0x61]
       + ([0x42, 0x87, 0x81, 0x04] + [0x42, 0x85, 0x81, 0x02])))))

  /** Contents of the header elements; Info, Tracks and Tags are opaque to the layout. */
  datatype HeaderParts = HeaderParts(info: seq<byte>, tracks: seq<byte>, editionUid: u64, atoms: seq<ChapterEntry>,
                                     tags: seq<byte>)

  function InfoElem(h: HeaderParts): seq<byte> { Elem(INFO_ID, h.info) }

  function TracksElem(h: HeaderParts): seq<byte> { Elem(TRACKS_ID, h.tracks) }

  function TagsElem(h: HeaderParts): seq<byte> { Elem(TAGS_ID, h.tags) }

  /** No atoms, no element. */
  function ChaptersElem(h: HeaderParts): seq<byte>
  {
    if h.atoms == [] then [] else Elem(CHAPTERS_ID, ChaptersContent(h.editionUid, h.atoms))
  }

  function ChaptersLen(h: HeaderParts): nat { if h.atoms == [] then 0 else ChaptersSize(h.editionUid, h.atoms) }

  lemma ChaptersLenIs(h: HeaderParts)
    ensures ChaptersLen(h) == |ChaptersElem(h)| && (ChaptersLen(h) > 0 <==> h.atoms != [])
  {
    hide ChaptersContent, ChaptersSize, IdSize, VintSize;
    if h.atoms != [] { ChaptersSizeIsLength(h.editionUid, h.atoms); }
    KnownIds();
  }

  /** What `layout` is called with. */
  function PartsOf(h: HeaderParts, clusters: seq<ClusterPlan>, frameDur: u64): Parts
  {
    Parts(|InfoElem(h)|, |TracksElem(h)|, ChaptersLen(h), |TagsElem(h)|, clusters, frameDur)
  }

  /** `lay` and `plans` are what the layout returned for these parts, at the solution `sol`. */
  ghost predicate LaidOut(h: HeaderParts, clusters: seq<ClusterPlan>, frameDur: u64, sol: Triple, lay: Layout,
                          plans: seq<ClusterPlan>)
  {
    var p := PartsOf(h, clusters, frameDur);
    && Fits(p) && Consistent(p, sol) && Below(sol, Widest(p))
    && lay == LayoutAt(p, sol) && plans == FilledAll(clusters, sol.posWidth, ClustersOff(p, sol))
  }

  // ---- concatenation

  function Join(parts: seq<seq<byte>>): seq<byte>
  {
    if |parts| == 0 then [] else Join(parts[..|parts| - 1]) + parts[|parts| - 1]
  }

  lemma JoinSnoc(parts: seq<seq<byte>>, x: seq<byte>)
    ensures Join(parts + [x]) == Join(parts) + x
  {
    assert (parts + [x])[..|parts|] == parts;
  }

  lemma {:induction false} JoinConcat(a: seq<seq<byte>>, b: seq<seq<byte>>)
    ensures Join(a + b) == Join(a) + Join(b)
  {
    if |b| == 0 {
      assert a + b == a;
    } else {
      var n := |b| - 1;
      assert (a + b)[..|a| + n] == a + b[..n];
      JoinConcat(a, b[..n]);
    }
  }

  /** Part `k` starts where the parts before it end. */
  lemma {:induction false} JoinAt(parts: seq<seq<byte>>, k: nat)
    requires k < |parts|
    ensures var o := |Join(parts[..k])|;
            && o + |parts[k]| <= |Join(parts)|
            && Join(parts)[o..] == parts[k] + Join(parts)[o + |parts[k]|..]
  {
    var n := |parts| - 1;
    if k < n {
      JoinAt(parts[..n], k);
      assert parts[..n][..k] == parts[..k];
    }
  }

  lemma {:induction false} JoinLen(parts: seq<seq<byte>>, sizes: seq<nat>, c: nat)
    requires c <= |parts| == |sizes| && forall i :: 0 <= i < |parts| ==> |parts[i]| == sizes[i]
    ensures |Join(parts[..c])| == Sum(sizes, 0, c)
  {
    if c > 0 {
      JoinLen(parts, sizes, c - 1);
      assert parts[..c][..c - 1] == parts[..c - 1];
    }
  }

  // ---- the octets

  function HeaderElems(h: HeaderParts, lay: Layout, plans: seq<ClusterPlan>): (s: seq<seq<byte>>)
    ensures |s| == 6
  {
    [SeekHead(lay.seek), InfoElem(h), TracksElem(h), ChaptersElem(h), TagsElem(h),
     Cues(plans, lay.posWidth, lay.frameDur)]
  }

  /** Everything in front of the first cluster. */
  function HeaderBytes(h: HeaderParts, lay: Layout, plans: seq<ClusterPlan>): seq<byte>
  {
    EBML_HEADER + Head(SEGMENT_ID, lay.segmentContent) + Join(HeaderElems(h, lay, plans))
  }

  /** The segment's content: header elements, then the clusters. */
  function SegmentBytes(h: HeaderParts, lay: Layout, plans: seq<ClusterPlan>, regions: seq<seq<byte>>): seq<byte>
  {
    Join(HeaderElems(h, lay, plans)) + Join(regions)
  }

  /** Regions as large as planned. */
  ghost predicate Sized(plans: seq<ClusterPlan>, regions: seq<seq<byte>>)
  {
    |regions| == |plans| && forall c :: 0 <= c < |plans| ==> |regions[c]| == plans[c].size
  }

  // ---- header lengths at the solution

  lemma LaidOutFits(h: HeaderParts, clusters: seq<ClusterPlan>, frameDur: u64, sol: Triple, lay: Layout,
                    plans: seq<ClusterPlan>)
    requires LaidOut(h, clusters, frameDur, sol, lay, plans)
    ensures SeekFits(lay.seek) && CuesFit(plans, lay.posWidth, lay.frameDur) && lay.posWidth <= 8
    ensures forall c :: 0 <= c < |plans| ==> plans[c].position < SIZE_LIMIT && plans[c].prevSize < SIZE_LIMIT
  {
    hide Sizes, Sum, FilledAll, Widest, SeekHeadSize, CuesSize, FileSize, UintSize, Consistent, Fits, CueFits, CueOf,
        InfoElem, TracksElem, TagsElem, ChaptersLen, CuesContent, SegmentContent;
    var p := PartsOf(h, clusters, frameDur);
    OffsetsBound(p, sol);
    WidestWidth(p);
    forall c | 0 <= c < |plans|
      ensures plans[c].position < SIZE_LIMIT && plans[c].prevSize < SIZE_LIMIT
              && CueFits(CueOf(plans[c], lay.posWidth, lay.frameDur))
    {
      FilledBound(p, sol, c);
      CueOfFits(plans[c], sol.posWidth, frameDur);
    }
  }

  lemma CueOfFits(plan: ClusterPlan, posWidth: nat, frameDur: u64)
    requires plan.position < SIZE_LIMIT && plan.prevSize < SIZE_LIMIT && posWidth <= 8
    ensures CueFits(CueOf(plan, posWidth, frameDur))
  {
    hide UintSize;
    UintSizeRange(plan.ts);
    UintSizeRange(plan.prevSize);
  }

  /** At the solution the header elements have the lengths the layout assumed. */
  lemma HeaderLengths(h: HeaderParts, clusters: seq<ClusterPlan>, frameDur: u64, sol: Triple, lay: Layout,
                      plans: seq<ClusterPlan>)
    requires LaidOut(h, clusters, frameDur, sol, lay, plans)
    ensures |SeekHead(lay.seek)| == sol.shSize && |Cues(plans, lay.posWidth, lay.frameDur)| == sol.cuesLen
    ensures lay.posWidth == UintSize(lay.fileSize)
    ensures lay.cuesContent == CRC_ELEMENT_LEN + CuePointsSize(plans, lay.posWidth, lay.frameDur)
  {
    hide Sizes, Sum, FilledAll, Widest, FileSize, UintSize, Fits, SeekHead, SeekHeadSize, Cues, CuePointsSize,
        SegmentContent, CuesFit, SeekFits;
    LaidOutFits(h, clusters, frameDur, sol, lay, plans);
    SeekHeadLength(lay.seek);
    CuesFacts(plans, lay.posWidth, lay.frameDur, lay.cuesContent);
  }

  lemma JoinHeaders(h: HeaderParts, lay: Layout, plans: seq<ClusterPlan>)
    ensures var parts := HeaderElems(h, lay, plans);
            var n0, n1, n2, n3, n4 := |SeekHead(lay.seek)|, |InfoElem(h)|, |TracksElem(h)|, |ChaptersElem(h)|,
                |TagsElem(h)|;
            && |Join(parts[..1])| == n0 && |Join(parts[..2])| == n0 + n1 && |Join(parts[..3])| == n0 + n1 + n2
            && |Join(parts[..4])| == n0 + n1 + n2 + n3 && |Join(parts[..5])| == n0 + n1 + n2 + n3 + n4
            && |Join(parts)| == n0 + n1 + n2 + n3 + n4 + |Cues(plans, lay.posWidth, lay.frameDur)|
  {
    hide SeekHead, InfoElem, TracksElem, ChaptersElem, TagsElem, Cues;
    var parts := HeaderElems(h, lay, plans);
    var lens := seq(6, i requires 0 <= i < 6 => |parts[i]|);
    JoinLen(parts, lens, 1);
    JoinLen(parts, lens, 2);
    JoinLen(parts, lens, 3);
    JoinLen(parts, lens, 4);
    JoinLen(parts, lens, 5);
    JoinLen(parts, lens, 6);
    SixSums(lens);
    assert parts[..6] == parts;
  }

  lemma SixSums(l: seq<nat>)
    requires |l| == 6
    ensures Sum(l, 0, 1) == l[0] && Sum(l, 0, 2) == l[0] + l[1] && Sum(l, 0, 3) == l[0] + l[1] + l[2]
    ensures Sum(l, 0, 4) == l[0] + l[1] + l[2] + l[3] && Sum(l, 0, 5) == l[0] + l[1] + l[2] + l[3] + l[4]
    ensures Sum(l, 0, 6) == l[0] + l[1] + l[2] + l[3] + l[4] + l[5]
  {}

  // ---- landing

  /** `element` is what the segment holds from `position` on. */
  ghost predicate At(segment: seq<byte>, position: nat, element: seq<byte>)
  {
    position + |element| <= |segment| && segment[position..] == element + segment[position + |element|..]
  }

  lemma AtFront(front: seq<byte>, back: seq<byte>, position: nat, element: seq<byte>)
    requires At(front, position, element)
    ensures At(front + back, position, element)
  {
    assert (front + back)[position..] == front[position..] + back;
    assert (front + back)[position + |element|..] == front[position + |element|..] + back;
  }

  lemma AtBack(front: seq<byte>, back: seq<byte>, position: nat, element: seq<byte>)
    requires At(back, position, element)
    ensures At(front + back, |front| + position, element)
  {
    assert (front + back)[|front| + position..] == back[position..];
    assert (front + back)[|front| + position + |element|..] == back[position + |element|..];
  }

  /** The offsets of the solved layout are the running lengths of the header elements. */
  lemma SeekOffsets(h: HeaderParts, clusters: seq<ClusterPlan>, frameDur: u64, sol: Triple, lay: Layout,
                    plans: seq<ClusterPlan>)
    requires LaidOut(h, clusters, frameDur, sol, lay, plans)
    ensures var parts := HeaderElems(h, lay, plans);
            && lay.seek.info == |Join(parts[..1])| && lay.seek.tracks == |Join(parts[..2])|
            && (lay.seek.chapters == if h.atoms == [] then None else Some(|Join(parts[..3])|))
            && lay.seek.tags == |Join(parts[..4])| && lay.seek.cues == |Join(parts[..5])|
            && lay.seek.cues + sol.cuesLen == |Join(parts)|
  {
    hide SeekHead, InfoElem, TracksElem, ChaptersElem, TagsElem, Cues, Join, FileSize, SegmentContent, CuesContent,
        HeaderElems, Fits, Consistent, FilledAll, Widest, ChaptersLen;
    HeaderLengths(h, clusters, frameDur, sol, lay, plans);
    ChaptersLenIs(h);
    JoinHeaders(h, lay, plans);
  }

  lemma HeaderLands(h: HeaderParts, lay: Layout, plans: seq<ClusterPlan>, regions: seq<seq<byte>>, k: nat)
    requires k < 6
    ensures var parts := HeaderElems(h, lay, plans);
            At(SegmentBytes(h, lay, plans, regions), |Join(parts[..k])|, parts[k])
  {
    hide HeaderElems, Join, At;
    var parts := HeaderElems(h, lay, plans);
    JoinLands(parts, k);
    AtFront(Join(parts), Join(regions), |Join(parts[..k])|, parts[k]);
  }

  lemma JoinLands(parts: seq<seq<byte>>, k: nat)
    requires k < |parts|
    ensures At(Join(parts), |Join(parts[..k])|, parts[k])
  {
    hide Join;
    JoinAt(parts, k);
  }

  /** At the solved layout every offset in the SeekHead is where its element lands. */
  lemma SeekHeadLands(h: HeaderParts, clusters: seq<ClusterPlan>, frameDur: u64, sol: Triple, lay: Layout,
                      plans: seq<ClusterPlan>,
                      regions: seq<seq<byte>>)
    requires LaidOut(h, clusters, frameDur, sol, lay, plans)
    ensures var segment := SegmentBytes(h, lay, plans, regions);
            && At(segment, lay.seek.info, InfoElem(h)) && At(segment, lay.seek.tracks, TracksElem(h))
            && (lay.seek.chapters.Some? <==> h.atoms != [])
            && (lay.seek.chapters.Some? ==> At(segment, lay.seek.chapters.value, ChaptersElem(h)))
            && At(segment, lay.seek.tags, TagsElem(h))
               && At(segment, lay.seek.cues, Cues(plans, lay.posWidth, lay.frameDur))
  {
    hide LaidOut, SeekHead, InfoElem, TracksElem, ChaptersElem, TagsElem, Cues, At, Join, SegmentBytes;
    SeekOffsets(h, clusters, frameDur, sol, lay, plans);
    HeaderLands(h, lay, plans, regions, 1);
    HeaderLands(h, lay, plans, regions, 2);
    HeaderLands(h, lay, plans, regions, 3);
    HeaderLands(h, lay, plans, regions, 4);
    HeaderLands(h, lay, plans, regions, 5);
  }

  lemma PlanAt(h: HeaderParts, clusters: seq<ClusterPlan>, frameDur: u64, sol: Triple, lay: Layout,
               plans: seq<ClusterPlan>, c: nat)
    requires LaidOut(h, clusters, frameDur, sol, lay, plans) && c < |clusters|
    ensures |plans| == |clusters|
    ensures var sizes := Sizes(clusters, sol.posWidth);
            && plans[c].position == lay.seek.cues + sol.cuesLen + Sum(sizes, 0, c)
            && plans[c].prevSize == Prev(sizes, c) && plans[c].size == sizes[c]
            && lay.posWidth == sol.posWidth && lay.frameDur == frameDur
            && plans[c].(size := 0, prevSize := 0, position := 0)
               == clusters[c].(size := 0, prevSize := 0, position := 0)
  {
    hide Sizes, Sum, FileSize, SegmentContent, CuesContent, Fits, Consistent, Widest;
  }

  /**
   * Every cluster lands at its Position, which is also its CueClusterPosition, directly behind the
   * PrevSize octets of its predecessor.
   */
  lemma ClusterLands(h: HeaderParts, clusters: seq<ClusterPlan>, frameDur: u64, sol: Triple, lay: Layout,
                     plans: seq<ClusterPlan>,
                     regions: seq<seq<byte>>, c: nat)
    requires LaidOut(h, clusters, frameDur, sol, lay, plans) && Sized(plans, regions) && c < |clusters| == |plans|
    ensures At(SegmentBytes(h, lay, plans, regions), plans[c].position, regions[c])
    ensures c > 0 ==>
      plans[c].prevSize == |regions[c - 1]| && plans[c - 1].position + plans[c].prevSize == plans[c].position
    ensures c == 0 ==> plans[c].prevSize == 0
  {
    hide LaidOut, At, Join, Sizes, HeaderElems, Sum;
    var sizes := Sizes(clusters, sol.posWidth);
    var header := Join(HeaderElems(h, lay, plans));
    RegionSizes(h, clusters, frameDur, sol, lay, plans, regions);
    SeekOffsets(h, clusters, frameDur, sol, lay, plans);
    JoinLen(regions, sizes, c);
    RegionAt(header, regions, c);
    PlanAt(h, clusters, frameDur, sol, lay, plans, c);
    if c > 0 {
      PlanAt(h, clusters, frameDur, sol, lay, plans, c - 1);
      SumNext(sizes, c - 1);
    }
  }

  lemma RegionSizes(h: HeaderParts, clusters: seq<ClusterPlan>, frameDur: u64, sol: Triple, lay: Layout,
                    plans: seq<ClusterPlan>,
                    regions: seq<seq<byte>>)
    requires LaidOut(h, clusters, frameDur, sol, lay, plans) && Sized(plans, regions)
    ensures var sizes := Sizes(clusters, sol.posWidth);
            |regions| == |sizes| && forall i :: 0 <= i < |regions| ==> |regions[i]| == sizes[i]
  {
    hide LaidOut, Sizes, Sum;
    PlanCount(h, clusters, frameDur, sol, lay, plans);
    forall i | 0 <= i < |regions| ensures |regions[i]| == Sizes(clusters, sol.posWidth)[i] {
      PlanAt(h, clusters, frameDur, sol, lay, plans, i);
    }
  }

  lemma PlanCount(h: HeaderParts, clusters: seq<ClusterPlan>, frameDur: u64, sol: Triple, lay: Layout,
                  plans: seq<ClusterPlan>)
    requires LaidOut(h, clusters, frameDur, sol, lay, plans)
    ensures |plans| == |clusters|
  {
    hide Sizes, Sum, FileSize, SegmentContent, CuesContent, Fits, Consistent, Widest;
  }

  lemma RegionAt(header: seq<byte>, regions: seq<seq<byte>>, c: nat)
    requires c < |regions|
    ensures At(header + Join(regions), |header| + |Join(regions[..c])|, regions[c])
  {
    hide Join, At;
    JoinLands(regions, c);
    AtBack(header, Join(regions), |Join(regions[..c])|, regions[c]);
  }

  /** A cluster position fits the width pinned for it: no truncation. */
  lemma PositionFits(h: HeaderParts, clusters: seq<ClusterPlan>, frameDur: u64, sol: Triple, lay: Layout,
                     plans: seq<ClusterPlan>, c: nat)
    requires LaidOut(h, clusters, frameDur, sol, lay, plans) && c < |plans|
    ensures BeValue(BeBytes(plans[c].position, lay.posWidth)) == plans[c].position
  {
    hide LaidOut, UintSize, BeValue, BeBytes, Pow2, Sum, Sizes;
    PlanCount(h, clusters, frameDur, sol, lay, plans);
    PlanAt(h, clusters, frameDur, sol, lay, plans, c);
    HeaderLengths(h, clusters, frameDur, sol, lay, plans);
    SumPart(Sizes(clusters, sol.posWidth), c);
    ContentIs(h, clusters, frameDur, sol, lay, plans);
    WidthHolds(lay.segmentContent, lay.fileSize, plans[c].position);
  }

  lemma SumPart(sizes: seq<nat>, c: nat)
    requires c < |sizes|
    ensures Sum(sizes, 0, c) <= Sum(sizes, 0, |sizes|)
  {
    SumHolds(sizes, c);
  }

  lemma ContentIs(h: HeaderParts, clusters: seq<ClusterPlan>, frameDur: u64, sol: Triple, lay: Layout,
                  plans: seq<ClusterPlan>)
    requires LaidOut(h, clusters, frameDur, sol, lay, plans)
    ensures lay.segmentContent == lay.seek.cues + sol.cuesLen + Sum(Sizes(clusters, sol.posWidth), 0, |clusters|)
    ensures lay.fileSize == FileSize(lay.segmentContent) && lay.segmentContent < SIZE_LIMIT
  {
    hide Sizes, Sum, FileSize, CuesContent, Consistent, Widest, FilledAll, InfoElem, TracksElem, TagsElem;
    SolutionFits(PartsOf(h, clusters, frameDur), sol);
  }

  lemma SolutionFits(p: Parts, sol: Triple)
    requires Fits(p) && Below(sol, Widest(p))
    ensures SegmentContent(p, sol.posWidth, sol.shSize, sol.cuesLen) < SIZE_LIMIT
  {
    hide SegmentContent, Widest, VintSize;
    var w := Widest(p);
    WidestWidth(p);
    FileSizeMono(p, sol.posWidth, 8, sol.shSize, w.shSize, sol.cuesLen, w.cuesLen);
  }

  lemma WidthHolds(content: nat, fileSize: nat, position: nat)
    requires fileSize == FileSize(content) && position <= content
    ensures BeValue(BeBytes(position, UintSize(fileSize))) == position
  {
    hide BeValue, BeBytes, Pow2, VintSize;
    WidthPositive(fileSize);
    UintSizeLeast(fileSize, UintSize(fileSize));
    BeValueOfBytes(position, UintSize(fileSize));
  }

  /** Header octets and cluster sizes make exactly the planned file. */
  lemma FileLength(h: HeaderParts, clusters: seq<ClusterPlan>, frameDur: u64, sol: Triple, lay: Layout,
                   plans: seq<ClusterPlan>,
                   regions: seq<seq<byte>>)
    requires LaidOut(h, clusters, frameDur, sol, lay, plans) && Sized(plans, regions)
    ensures |SegmentBytes(h, lay, plans, regions)| == lay.segmentContent
    ensures |HeaderBytes(h, lay, plans)| + |Join(regions)| == lay.fileSize
  {
    hide LaidOut, Join, Sizes, HeaderElems, IdSize, VintSize, Sum;
    RegionSizes(h, clusters, frameDur, sol, lay, plans, regions);
    SeekOffsets(h, clusters, frameDur, sol, lay, plans);
    ContentIs(h, clusters, frameDur, sol, lay, plans);
    JoinLen(regions, Sizes(clusters, sol.posWidth), |regions|);
    assert regions[..|regions|] == regions;
    KnownIds();
  }

  // ---- writing the headers

  /** Everything up to the `k`-th header element. */
  function HeaderFront(h: HeaderParts, lay: Layout, plans: seq<ClusterPlan>, k: nat): seq<byte>
    requires k <= 6
  {
    EBML_HEADER + Head(SEGMENT_ID, lay.segmentContent) + Join(HeaderElems(h, lay, plans)[..k])
  }

  lemma HeaderNext(h: HeaderParts, lay: Layout, plans: seq<ClusterPlan>, k: nat)
    requires k < 6
    ensures var es := HeaderElems(h, lay, plans);
            && HeaderFront(h, lay, plans, k + 1) == HeaderFront(h, lay, plans, k) + es[k]
            && |HeaderFront(h, lay, plans, k)| + |es[k]| <= |HeaderBytes(h, lay, plans)|
  {
    hide HeaderElems, Head;
    var es := HeaderElems(h, lay, plans);
    JoinAt(es, k);
    assert es[..k + 1] == es[..k] + [es[k]];
    JoinSnoc(es[..k], es[k]);
    var front := EBML_HEADER + Head(SEGMENT_ID, lay.segmentContent);
    assert front + (Join(es[..k]) + es[k]) == (front + Join(es[..k])) + es[k];
  }

  lemma HeaderEnds(h: HeaderParts, lay: Layout, plans: seq<ClusterPlan>)
    ensures HeaderFront(h, lay, plans, 0) == EBML_HEADER + Head(SEGMENT_ID, lay.segmentContent)
    ensures HeaderFront(h, lay, plans, 6) == HeaderBytes(h, lay, plans)
    ensures |HeaderFront(h, lay, plans, 0)| <= |HeaderBytes(h, lay, plans)|
  {
    hide HeaderElems, Head;
    var es := HeaderElems(h, lay, plans);
    assert es[..6] == es && es[..0] == [];
    assert Join(es[..0]) == [];
  }

  /** An element already in octets. */
  method PutElem(dst: array<byte>, pos: nat, ghost s0: seq<byte>, ghost front: seq<byte>, element: seq<byte>)
    returns (next: nat)
    requires Stored(s0, dst[..], 0, front) && pos == |front| && |front| + |element| <= dst.Length
    modifies dst
    ensures Stored(s0, dst[..], 0, front + element) && next == |front + element|
  {
    hide Stored;
    ghost var s1 := dst[..];
    Store(dst, pos, element);
    StoredThen(s0, s1, dst[..], 0, front, element);
    next := pos + |element|;
  }

  method PutSeekHead(dst: array<byte>, pos: nat, ghost s0: seq<byte>, ghost front: seq<byte>, seek: SeekTable)
    returns (next: nat)
    requires SeekFits(seek) && Stored(s0, dst[..], 0, front) && pos == |front|
             && |front| + |SeekHead(seek)| <= dst.Length
    modifies dst
    ensures Stored(s0, dst[..], 0, front + SeekHead(seek)) && next == |front + SeekHead(seek)|
  {
    hide *;
    ghost var s1 := dst[..];
    SeekHeadLength(seek);
    var n := WriteSeekHead(dst, pos, seek);
    StoredThen(s0, s1, dst[..], 0, front, SeekHead(seek));
    next := pos + n;
  }

  method PutChapters(dst: array<byte>, pos: nat, ghost s0: seq<byte>, ghost front: seq<byte>, h: HeaderParts)
    returns (next: nat)
    requires ChaptersLen(h) < SIZE_LIMIT && Stored(s0, dst[..], 0, front) && pos == |front|
             && |front| + |ChaptersElem(h)| <= dst.Length
    modifies dst
    ensures Stored(s0, dst[..], 0, front + ChaptersElem(h)) && next == |front + ChaptersElem(h)|
  {
    hide Stored, ChaptersContent, ChaptersSize, Elem;
    ghost var s1 := dst[..];
    ChaptersLenIs(h);
    next := pos;
    if h.atoms != [] {
      var n := WriteChapters(dst, pos, h.editionUid, h.atoms);
      StoredThen(s0, s1, dst[..], 0, front, ChaptersElem(h));
      next := next + n;
    } else {
      assert front + [] == front;
    }
  }

  method PutCues(dst: array<byte>, pos: nat, ghost s0: seq<byte>, ghost front: seq<byte>, plans: seq<ClusterPlan>,
                 lay: Layout) returns (next: nat)
    requires CuesFit(plans, lay.posWidth, lay.frameDur)
    requires lay.cuesContent == CRC_ELEMENT_LEN + CuePointsSize(plans, lay.posWidth, lay.frameDur) < SIZE_LIMIT
    requires Stored(s0, dst[..], 0, front) && pos == |front|
             && |front| + |Cues(plans, lay.posWidth, lay.frameDur)| <= dst.Length
    modifies dst
    ensures Stored(s0, dst[..], 0, front + Cues(plans, lay.posWidth, lay.frameDur))
            && next == |front + Cues(plans, lay.posWidth, lay.frameDur)|
  {
    hide *;
    ghost var s1 := dst[..];
    CuesFacts(plans, lay.posWidth, lay.frameDur, lay.cuesContent);
    var n := WriteCues(dst, pos, plans, lay.posWidth, lay.frameDur, lay.cuesContent);
    StoredThen(s0, s1, dst[..], 0, front, Cues(plans, lay.posWidth, lay.frameDur));
    next := pos + n;
  }

  lemma WriteFacts(h: HeaderParts, clusters: seq<ClusterPlan>, frameDur: u64, sol: Triple, lay: Layout,
                   plans: seq<ClusterPlan>)
    requires LaidOut(h, clusters, frameDur, sol, lay, plans)
    ensures SeekFits(lay.seek) && CuesFit(plans, lay.posWidth, lay.frameDur)
    ensures lay.cuesContent == CRC_ELEMENT_LEN + CuePointsSize(plans, lay.posWidth, lay.frameDur) < SIZE_LIMIT
    ensures lay.segmentContent < SIZE_LIMIT && ChaptersLen(h) < SIZE_LIMIT
    ensures HeaderElems(h, lay, plans)
         == [SeekHead(lay.seek), InfoElem(h), TracksElem(h), ChaptersElem(h), TagsElem(h),
             Cues(plans, lay.posWidth, lay.frameDur)]
  {
    hide LaidOut, Cues, SeekFits, CuesFit, CuePointsSize, Sum, Sizes, SeekHead, InfoElem, TracksElem, ChaptersElem,
        TagsElem, FileSize, ChaptersLen;
    LaidOutFits(h, clusters, frameDur, sol, lay, plans);
    HeaderLengths(h, clusters, frameDur, sol, lay, plans);
    CuesFacts(plans, lay.posWidth, lay.frameDur, lay.cuesContent);
    ContentIs(h, clusters, frameDur, sol, lay, plans);
    SeekOffsets(h, clusters, frameDur, sol, lay, plans);
    ChaptersLenIs(h);
    JoinHeaders(h, lay, plans);
  }

  /** The header octets at the start of the file; the clusters' regions begin where it returns. */
  method WriteHeaders(dst: array<byte>, h: HeaderParts, lay: Layout, plans: seq<ClusterPlan>,
                      ghost clusters: seq<ClusterPlan>, ghost frameDur: u64, ghost sol: Triple) returns (pos: nat)
    requires LaidOut(h, clusters, frameDur, sol, lay, plans) && |HeaderBytes(h, lay, plans)| <= dst.Length
    modifies dst
    ensures pos == |HeaderBytes(h, lay, plans)| && Stored(old(dst[..]), dst[..], 0, HeaderBytes(h, lay, plans))
  {
    hide *;
    WriteFacts(h, clusters, frameDur, sol, lay, plans);
    HeaderEnds(h, lay, plans);
    ghost var s0 := dst[..];
    StoredNothing(s0, 0);
    pos := PutElem(dst, 0, s0, [], EBML_HEADER);
    ghost var s1 := dst[..];
    assert [] + EBML_HEADER == EBML_HEADER;
    var n := WriteSegmentHeader(dst, pos, lay.segmentContent);
    StoredThen(s0, s1, dst[..], 0, EBML_HEADER, Head(SEGMENT_ID, lay.segmentContent));
    pos := pos + n;
    HeaderNext(h, lay, plans, 0);
    pos := PutSeekHead(dst, pos, s0, HeaderFront(h, lay, plans, 0), lay.seek);
    HeaderNext(h, lay, plans, 1);
    pos := PutElem(dst, pos, s0, HeaderFront(h, lay, plans, 1), InfoElem(h));
    HeaderNext(h, lay, plans, 2);
    pos := PutElem(dst, pos, s0, HeaderFront(h, lay, plans, 2), TracksElem(h));
    HeaderNext(h, lay, plans, 3);
    pos := PutChapters(dst, pos, s0, HeaderFront(h, lay, plans, 3), h);
    HeaderNext(h, lay, plans, 4);
    pos := PutElem(dst, pos, s0, HeaderFront(h, lay, plans, 4), TagsElem(h));
    HeaderNext(h, lay, plans, 5);
    pos := PutCues(dst, pos, s0, HeaderFront(h, lay, plans, 5), plans, lay);
  }
}
