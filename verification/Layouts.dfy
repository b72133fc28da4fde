/** The layout of a Matroska file: every size and offset, solved before a byte is written. */
module Layouts {
  import opened Bytes
  import opened Ebml
  import opened Crc
  import opened ClusterPlans

  const CLUSTER_ID: nat := 0x1F43_B675
  const CUES_ID: nat := 0x1C53_BB6B
  const SEEK_HEAD_ID: nat := 0x114D_9B74
  const SEEK_MASTER_ID: nat := 0x4DBB
  const SEEK_ID: nat := 0x53AB
  const SEEK_POSITION: nat := 0x53AC
  const EBML_HEADER_LEN: nat := 40

  // ---- sizes of the elements whose width depends on where they are

  function PrevOctets(prevSize: nat): nat { if prevSize > 0 then 2 + UintSize(prevSize) else 0 }

  function ClusterContentSize(ts: u64, blocks: nat, posWidth: nat, prevSize: nat): nat
  {
    CRC_ELEMENT_LEN + 2 + UintSize(ts) + 2 + posWidth + PrevOctets(prevSize) + blocks
  }

  function ClusterSize(ts: u64, blocks: nat, posWidth: nat, prevSize: nat): nat
  {
    var content := ClusterContentSize(ts, blocks, posWidth, prevSize);
    4 + VintSize(content) + content
  }

  function BlocksOf(p: ClusterPlan): nat { p.bgTotal + p.sbTotal + p.subTotal }

  datatype Cue = Cue(timeTicks: u64, clusterPosition: nat, relativePosition: nat, durationTicks: u64)

  /** The relative position is that of the first block: past checksum, Timestamp, Position and PrevSize. */
  function CueOf(p: ClusterPlan, posWidth: nat, frameDur: u64): Cue
  {
    Cue(p.ts, p.position, 8 + UintSize(p.ts) + 2 + posWidth + PrevOctets(p.prevSize), frameDur)
  }

  function CuePointSize(c: Cue): nat
  {
    22 + UintSize(c.timeTicks) + UintSize(c.clusterPosition) + UintSize(c.relativePosition) + UintSize(c.durationTicks)
  }

  function CuePointsSize(plans: seq<ClusterPlan>, posWidth: nat, frameDur: u64): nat
  {
    if |plans| == 0 then 0
    else
      CuePointsSize(plans[..|plans| - 1], posWidth, frameDur)
      + CuePointSize(CueOf(plans[|plans| - 1], posWidth, frameDur))
  }

  function CuesSize(content: nat): nat { ElemSize(CUES_ID, content) }

  datatype SeekTable = SeekTable(info: nat, tracks: nat, chapters: Option<nat>, cues: nat, tags: nat)

  function SeekEntrySize(position: nat): nat
  {
    ElemSize(SEEK_MASTER_ID, ElemSize(SEEK_ID, 4) + UintElemSize(SEEK_POSITION, position))
  }

  function SeekContentSize(t: SeekTable): nat
  {
    CRC_ELEMENT_LEN + SeekEntrySize(t.info) + SeekEntrySize(t.tracks)
    + (match t.chapters case Some(c) => SeekEntrySize(c) case None => 0)
    + SeekEntrySize(t.cues) + SeekEntrySize(t.tags)
  }

  function SeekHeadSize(t: SeekTable): nat { ElemSize(SEEK_HEAD_ID, SeekContentSize(t)) }

  function SegmentSize(content: nat): nat { 4 + VintSize(content) + content }

  // ---- the equations

  /** What the layout is computed from: element sizes known up front, and the clusters' blocks. */
  datatype Parts = Parts(info: nat, tracks: nat, chapters: nat, tags: nat, clusters: seq<ClusterPlan>, frameDur: u64)

  /** The three mutually dependent unknowns. */
  datatype Triple = Triple(shSize: nat, cuesLen: nat, posWidth: nat)

  predicate Below(t: Triple, u: Triple)
  {
    t.shSize <= u.shSize && t.cuesLen <= u.cuesLen && t.posWidth <= u.posWidth
  }

  /** Cluster sizes in turn: each depends on its predecessor's through PrevSize. */
  function Sizes(clusters: seq<ClusterPlan>, posWidth: nat): (s: seq<nat>)
    ensures |s| == |clusters|
  {
    if |clusters| == 0 then []
    else
      var n := |clusters| - 1;
      var s := Sizes(clusters[..n], posWidth);
      s + [ClusterSize(clusters[n].ts, BlocksOf(clusters[n]), posWidth, Prev(s, n))]
  }

  function Prev(sizes: seq<nat>, c: nat): nat
    requires c <= |sizes|
  {
    if c == 0 then 0 else sizes[c - 1]
  }

  function Filled(p: ClusterPlan, sizes: seq<nat>, off: nat, c: nat): ClusterPlan
    requires c < |sizes|
  {
    p.(size := sizes[c], prevSize := Prev(sizes, c), position := off + Sum(sizes, 0, c))
  }

  /** The clusters with size, predecessor size and position filled in. */
  function FilledAll(clusters: seq<ClusterPlan>, posWidth: nat, off: nat): (s: seq<ClusterPlan>)
    ensures |s| == |clusters|
  {
    var sizes := Sizes(clusters, posWidth);
    seq(|clusters|, c requires 0 <= c < |clusters| => Filled(clusters[c], sizes, off, c))
  }

  function SeekOf(p: Parts, t: Triple): SeekTable
  {
    var tracksOff := t.shSize + p.info;
    var chaptersOff := tracksOff + p.tracks;
    var tagsOff := chaptersOff + p.chapters;
    SeekTable(t.shSize, tracksOff, if p.chapters > 0 then Some(chaptersOff) else None, tagsOff + p.tags, tagsOff)
  }

  function ClustersOff(p: Parts, t: Triple): nat { SeekOf(p, t).cues + t.cuesLen }

  function CuesContent(p: Parts, t: Triple): nat
  {
    CRC_ELEMENT_LEN + CuePointsSize(FilledAll(p.clusters, t.posWidth, ClustersOff(p, t)), t.posWidth, p.frameDur)
  }

  /** Segment content when the seek head takes `sh` and the cues take `cues`. */
  function SegmentContent(p: Parts, posWidth: nat, sh: nat, cues: nat): nat
  {
    sh + p.info + p.tracks + p.chapters + p.tags + cues + Sum(Sizes(p.clusters, posWidth), 0, |p.clusters|)
  }

  function FileSize(segmentContent: nat): nat { EBML_HEADER_LEN + SegmentSize(segmentContent) }

  /** One pass of the equations. */
  function Next(p: Parts, t: Triple): Triple
  {
    var sh := SeekHeadSize(SeekOf(p, t));
    var cues := CuesSize(CuesContent(p, t));
    Triple(sh, cues, UintSize(FileSize(SegmentContent(p, t.posWidth, sh, cues))))
  }

  /** The widest the unknowns can get with eight-octet positions. */
  function Widest(p: Parts): Triple
  {
    Triple(SeekHeadWidest(), CuesSize(CRC_ELEMENT_LEN + 54 * |p.clusters|), 8)
  }

  function SeekHeadWidest(): nat
  {
    ElemSize(SEEK_HEAD_ID, CRC_ELEMENT_LEN + 5 * ElemSize(SEEK_MASTER_ID,
                                                          ElemSize(SEEK_ID, 4) + IdSize(SEEK_POSITION) + 1 + 8))
  }

  /** The file stays below the largest size EBML can state even at its widest. */
  ghost predicate Fits(p: Parts)
  {
    var w := Widest(p);
    FileSize(SegmentContent(p, 8, w.shSize, w.cuesLen)) < SIZE_LIMIT
  }

  // ---- monotonicity

  lemma PrevOctetsMono(a: nat, b: nat)
    requires a <= b
    ensures PrevOctets(a) <= PrevOctets(b)
  {
    UintSizeMono(a, b);
  }

  lemma ClusterSizeMono(ts: u64, blocks: nat, w: nat, w': nat, prev: nat, prev': nat)
    requires w <= w' && prev <= prev'
    ensures ClusterSize(ts, blocks, w, prev) <= ClusterSize(ts, blocks, w', prev')
  {
    hide VintSize, UintSize, PrevOctets;
    PrevOctetsMono(prev, prev');
    VintSizeMono(ClusterContentSize(ts, blocks, w, prev), ClusterContentSize(ts, blocks, w', prev'));
  }

  lemma {:induction false} SizesMono(clusters: seq<ClusterPlan>, w: nat, w': nat)
    requires w <= w'
    ensures forall c :: 0 <= c < |clusters| ==> Sizes(clusters, w)[c] <= Sizes(clusters, w')[c]
  {
    hide ClusterSize;
    if |clusters| > 0 {
      var n := |clusters| - 1;
      SizesMono(clusters[..n], w, w');
      ClusterSizeMono(clusters[n].ts, BlocksOf(clusters[n]), w, w',
                      Prev(Sizes(clusters[..n], w), n), Prev(Sizes(clusters[..n], w'), n));
    }
  }

  lemma {:induction false} SumMono(a: seq<nat>, b: seq<nat>, lo: nat, hi: nat)
    requires |a| == |b| && forall i :: 0 <= i < |a| ==> a[i] <= b[i]
    ensures Sum(a, lo, hi) <= Sum(b, lo, hi)
    decreases hi
  {
    if lo < hi <= |a| { SumMono(a, b, lo, hi - 1); }
  }

  /** Cue points of one plan grow with its position, predecessor and the position width. */
  lemma CuePointMono(p: ClusterPlan, q: ClusterPlan, w: nat, w': nat, fd: u64)
    requires p.ts == q.ts && p.position <= q.position && p.prevSize <= q.prevSize && w <= w'
    ensures CuePointSize(CueOf(p, w, fd)) <= CuePointSize(CueOf(q, w', fd))
  {
    hide UintSize, PrevOctets;
    PrevOctetsMono(p.prevSize, q.prevSize);
    UintSizeMono(p.position, q.position);
    UintSizeMono(CueOf(p, w, fd).relativePosition, CueOf(q, w', fd).relativePosition);
  }

  ghost predicate PlanBelow(p: ClusterPlan, q: ClusterPlan)
  {
    p.ts == q.ts && p.position <= q.position && p.prevSize <= q.prevSize
  }

  lemma {:induction false} CuePointsMono(a: seq<ClusterPlan>, b: seq<ClusterPlan>, w: nat, w': nat, fd: u64)
    requires |a| == |b| && w <= w' && forall c :: 0 <= c < |a| ==> PlanBelow(a[c], b[c])
    ensures CuePointsSize(a, w, fd) <= CuePointsSize(b, w', fd)
  {
    hide CuePointSize, CueOf;
    if |a| > 0 {
      var n := |a| - 1;
      assert PlanBelow(a[n], b[n]);
      CuePointMono(a[n], b[n], w, w', fd);
      CuePointsMono(a[..n], b[..n], w, w', fd);
    }
  }

  lemma FilledMono(clusters: seq<ClusterPlan>, w: nat, w': nat, off: nat, off': nat)
    requires w <= w' && off <= off'
    ensures forall c :: 0 <= c < |clusters| ==>
            PlanBelow(FilledAll(clusters, w, off)[c], FilledAll(clusters, w', off')[c])
  {
    hide Sizes, Sum;
    SizesMono(clusters, w, w');
    forall c | 0 <= c < |clusters| ensures PlanBelow(FilledAll(clusters, w, off)[c], FilledAll(clusters, w', off')[c]) {
      SumMono(Sizes(clusters, w), Sizes(clusters, w'), 0, c);
    }
  }

  lemma ElemSizeMono(id: nat, a: nat, b: nat)
    requires a <= b
    ensures ElemSize(id, a) <= ElemSize(id, b)
  {
    VintSizeMono(a, b);
  }

  lemma SeekEntryMono(a: nat, b: nat)
    requires a <= b
    ensures SeekEntrySize(a) <= SeekEntrySize(b)
  {
    hide ElemSize, UintSize, IdSize;
    UintSizeMono(a, b);
    ElemSizeMono(SEEK_MASTER_ID, ElemSize(SEEK_ID, 4) + UintElemSize(SEEK_POSITION, a),
                 ElemSize(SEEK_ID, 4) + UintElemSize(SEEK_POSITION, b));
  }

  lemma SeekHeadMono(p: Parts, t: Triple, u: Triple)
    requires Below(t, u)
    ensures SeekHeadSize(SeekOf(p, t)) <= SeekHeadSize(SeekOf(p, u))
  {
    hide ElemSize, SeekEntrySize;
    var a, b := SeekOf(p, t), SeekOf(p, u);
    SeekEntryMono(a.info, b.info);
    SeekEntryMono(a.tracks, b.tracks);
    if p.chapters > 0 { SeekEntryMono(a.chapters.value, b.chapters.value); }
    SeekEntryMono(a.cues, b.cues);
    SeekEntryMono(a.tags, b.tags);
    ElemSizeMono(SEEK_HEAD_ID, SeekContentSize(a), SeekContentSize(b));
  }

  lemma CuesMono(p: Parts, t: Triple, u: Triple)
    requires Below(t, u)
    ensures CuesSize(CuesContent(p, t)) <= CuesSize(CuesContent(p, u))
  {
    hide ElemSize, FilledAll, CuePointsSize;
    FilledMono(p.clusters, t.posWidth, u.posWidth, ClustersOff(p, t), ClustersOff(p, u));
    CuePointsMono(FilledAll(p.clusters, t.posWidth, ClustersOff(p, t)),
                  FilledAll(p.clusters, u.posWidth, ClustersOff(p, u)),
                  t.posWidth, u.posWidth, p.frameDur);
    ElemSizeMono(CUES_ID, CuesContent(p, t), CuesContent(p, u));
  }

  lemma FileSizeMono(p: Parts, w: nat, w': nat, sh: nat, sh': nat, cues: nat, cues': nat)
    requires w <= w' && sh <= sh' && cues <= cues'
    ensures FileSize(SegmentContent(p, w, sh, cues)) <= FileSize(SegmentContent(p, w', sh', cues'))
  {
    hide Sizes, Sum, VintSize;
    SizesMono(p.clusters, w, w');
    SumMono(Sizes(p.clusters, w), Sizes(p.clusters, w'), 0, |p.clusters|);
    VintSizeMono(SegmentContent(p, w, sh, cues), SegmentContent(p, w', sh', cues'));
  }

  /** Wider unknowns never shrink the next ones. */
  lemma NextMono(p: Parts, t: Triple, u: Triple)
    requires Below(t, u)
    ensures Below(Next(p, t), Next(p, u))
  {
    hide SeekHeadSize, SeekOf, CuesSize, CuesContent, SegmentContent, FileSize, UintSize;
    SeekHeadMono(p, t, u);
    CuesMono(p, t, u);
    var a, b := Next(p, t), Next(p, u);
    FileSizeMono(p, t.posWidth, u.posWidth, a.shSize, b.shSize, a.cuesLen, b.cuesLen);
    UintSizeMono(FileSize(SegmentContent(p, t.posWidth, a.shSize, a.cuesLen)),
                 FileSize(SegmentContent(p, u.posWidth, b.shSize, b.cuesLen)));
  }

  // ---- boundedness

  lemma SeekEntryWidest(position: nat)
    requires position < U64_LIMIT
    ensures SeekEntrySize(position) <= ElemSize(SEEK_MASTER_ID, ElemSize(SEEK_ID, 4) + IdSize(SEEK_POSITION) + 1 + 8)
  {
    hide ElemSize, IdSize, UintSize;
    UintSizeRange(position);
    ElemSizeMono(SEEK_MASTER_ID, ElemSize(SEEK_ID, 4) + UintElemSize(SEEK_POSITION, position),
                 ElemSize(SEEK_ID, 4) + IdSize(SEEK_POSITION) + 1 + 8);
  }

  lemma SeekHeadBound(t: SeekTable)
    requires t.info < U64_LIMIT && t.tracks < U64_LIMIT && t.cues < U64_LIMIT && t.tags < U64_LIMIT
    requires t.chapters.Some? ==> t.chapters.value < U64_LIMIT
    ensures SeekHeadSize(t) <= SeekHeadWidest()
  {
    hide ElemSize, SeekEntrySize, IdSize;
    SeekEntryWidest(t.info);
    SeekEntryWidest(t.tracks);
    if t.chapters.Some? { SeekEntryWidest(t.chapters.value); }
    SeekEntryWidest(t.cues);
    SeekEntryWidest(t.tags);
    ElemSizeMono(SEEK_HEAD_ID, SeekContentSize(t),
                 CRC_ELEMENT_LEN + 5 * ElemSize(SEEK_MASTER_ID, ElemSize(SEEK_ID, 4) + IdSize(SEEK_POSITION) + 1 + 8));
  }

  lemma CuePointBound(p: ClusterPlan, w: nat, fd: u64)
    requires p.position < U64_LIMIT && p.prevSize < U64_LIMIT && w <= 8
    ensures CuePointSize(CueOf(p, w, fd)) <= 54
  {
    hide UintSize;
    UintSizeRange(p.ts);
    UintSizeRange(p.position);
    UintSizeRange(p.prevSize);
    UintSizeRange(CueOf(p, w, fd).relativePosition);
    UintSizeRange(fd);
  }

  lemma {:induction false} CuePointsBound(plans: seq<ClusterPlan>, w: nat, fd: u64)
    requires w <= 8 && forall c :: 0 <= c < |plans| ==> plans[c].position < U64_LIMIT && plans[c].prevSize < U64_LIMIT
    ensures CuePointsSize(plans, w, fd) <= 54 * |plans|
  {
    hide CuePointSize, CueOf;
    if |plans| > 0 {
      CuePointBound(plans[|plans| - 1], w, fd);
      CuePointsBound(plans[..|plans| - 1], w, fd);
    }
  }

  lemma {:induction false} SumHolds(s: seq<nat>, c: nat)
    requires c < |s|
    ensures Sum(s, 0, c) + s[c] <= Sum(s, 0, |s|)
  {
    SumSplit(s, 0, c + 1, |s|);
  }

  /** Below the widest, nothing in the file is past its end. */
  lemma FilledBound(p: Parts, t: Triple, c: nat)
    requires Fits(p) && Below(t, Widest(p)) && c < |p.clusters|
    ensures var f := FilledAll(p.clusters, t.posWidth, ClustersOff(p, t))[c];
            f.position < SIZE_LIMIT && f.prevSize < SIZE_LIMIT
  {
    hide Sizes, VintSize, Widest, Sum;
    var sizes, wide := Sizes(p.clusters, t.posWidth), Sizes(p.clusters, 8);
    WidestWidth(p);
    SizesMono(p.clusters, t.posWidth, 8);
    SumMono(sizes, wide, 0, |sizes|);
    SumHolds(sizes, c);
    if c > 0 { SumHolds(sizes, c - 1); }
  }

  lemma WidestWidth(p: Parts)
    ensures Widest(p).posWidth == 8
  {}

  lemma OffsetsBound(p: Parts, t: Triple)
    requires Fits(p) && Below(t, Widest(p))
    ensures ClustersOff(p, t) < SIZE_LIMIT
  {
    hide Sizes, VintSize, Widest, Sum;
  }

  /** One pass from below the widest stays below it. */
  lemma NextBound(p: Parts, t: Triple)
    requires Fits(p) && Below(t, Widest(p))
    ensures Below(Next(p, t), Widest(p))
  {
    hide Next, Widest, Fits;
    NextSeekBound(p, t);
    NextCuesBound(p, t);
    NextWidthBound(p, t);
  }

  lemma NextSeekBound(p: Parts, t: Triple)
    requires Fits(p) && Below(t, Widest(p))
    ensures Next(p, t).shSize <= Widest(p).shSize
  {
    hide SeekHeadSize, SeekHeadWidest, CuesSize, CuesContent, SegmentContent, FileSize, Fits, UintSize;
    OffsetsBound(p, t);
    SeekHeadBound(SeekOf(p, t));
  }

  lemma NextCuesBound(p: Parts, t: Triple)
    requires Fits(p) && Below(t, Widest(p))
    ensures Next(p, t).cuesLen <= Widest(p).cuesLen
  {
    hide SeekHeadSize, SeekHeadWidest, SegmentContent, FileSize, Fits, UintSize, FilledAll, ElemSize, CuePointsSize;
    var filled := FilledAll(p.clusters, t.posWidth, ClustersOff(p, t));
    forall c | 0 <= c < |filled| ensures filled[c].position < U64_LIMIT && filled[c].prevSize < U64_LIMIT {
      FilledBound(p, t, c);
    }
    CuePointsBound(filled, t.posWidth, p.frameDur);
    ElemSizeMono(CUES_ID, CuesContent(p, t), CRC_ELEMENT_LEN + 54 * |p.clusters|);
  }

  lemma NextWidthBound(p: Parts, t: Triple)
    requires Fits(p) && Below(t, Widest(p))
    ensures Next(p, t).posWidth <= Widest(p).posWidth && 1 <= Next(p, t).posWidth
  {
    hide SeekHeadSize, SeekOf, CuesSize, CuesContent, SegmentContent, FileSize, UintSize, SeekHeadWidest;
    NextSeekBound(p, t);
    NextCuesBound(p, t);
    var n, w := Next(p, t), Widest(p);
    FileSizeMono(p, t.posWidth, 8, n.shSize, w.shSize, n.cuesLen, w.cuesLen);
    UintSizeRange(FileSize(SegmentContent(p, t.posWidth, n.shSize, n.cuesLen)));
  }

  // ---- the fixpoint

  datatype Layout = Layout(seek: SeekTable, segmentContent: nat, fileSize: nat, posWidth: nat, frameDur: u64,
                           cuesContent: nat)

  /** A triple the equations reproduce. */
  ghost predicate Consistent(p: Parts, t: Triple) { Next(p, t) == t }

  /** Any triple the equations reproduce is at least as wide. */
  ghost predicate Least(p: Parts, t: Triple) { forall u :: Consistent(p, u) ==> Below(t, u) }

  /** The layout a consistent triple stands for. */
  function LayoutAt(p: Parts, t: Triple): Layout
  {
    var content := SegmentContent(p, t.posWidth, t.shSize, t.cuesLen);
    Layout(SeekOf(p, t), content, FileSize(content), t.posWidth, p.frameDur, CuesContent(p, t))
  }

  const START: Triple := Triple(0, 0, 1)

  /** `t` is an iterate: the next one is no smaller, and nothing the equations shrink into lies below it. */
  ghost predicate Iterate(p: Parts, t: Triple)
  {
    && Below(t, Widest(p)) && Below(t, Next(p, t))
    && forall u :: Below(Next(p, u), u) ==> Below(t, u)
  }

  lemma StartIterates(p: Parts)
    ensures Iterate(p, START)
  {
    hide SeekHeadSize, CuesSize, CuesContent, FileSize, SegmentContent, SeekHeadWidest, UintSize, SeekOf;
    forall u ensures Next(p, u).posWidth >= 1 {
      WidthPositive(FileSize(SegmentContent(p, u.posWidth, Next(p, u).shSize, Next(p, u).cuesLen)));
    }
  }

  lemma WidthPositive(v: nat)
    ensures UintSize(v) >= 1
  {}

  /** An iterate that is not consistent moves to a strictly wider iterate. */
  lemma IterateOn(p: Parts, t: Triple)
    requires Fits(p) && Iterate(p, t)
    ensures Iterate(p, Next(p, t))
    ensures Next(p, t) != t ==> Room(p, Next(p, t)) < Room(p, t)
  {
    hide Next, Fits, Widest;
    NextBound(p, t);
    NextMono(p, t, Next(p, t));
    forall u | Below(Next(p, u), u) ensures Below(Next(p, t), u) { NextMono(p, t, u); }
  }

  /** How much wider the unknowns can still get. */
  ghost function Room(p: Parts, t: Triple): int
  {
    var w := Widest(p);
    (w.shSize - t.shSize) + (w.cuesLen - t.cuesLen) + (w.posWidth - t.posWidth)
  }

  lemma IterateBound(p: Parts, t: Triple)
    requires Iterate(p, t)
    ensures Below(t, Widest(p))
  {}

  lemma RoomNonNegative(p: Parts, t: Triple)
    requires Iterate(p, t)
    ensures Room(p, t) >= 0
  {
    hide Next, Widest;
  }

  /** An iterate that solves the equations is the least of their solutions. */
  lemma LeastSolution(p: Parts, t: Triple, u: Triple)
    requires Iterate(p, t) && Consistent(p, t) && Consistent(p, u)
    ensures Below(t, u) && (Iterate(p, u) ==> t == u)
  {
    hide Next, Widest;
    assert Below(Next(p, u), u) && Below(Next(p, t), t);
  }

  /** What the planning pass read is unchanged by it. */
  ghost predicate SameInput(was: seq<ClusterPlan>, now: seq<ClusterPlan>)
  {
    && |now| == |was|
    && forall c :: 0 <= c < |was| ==>
       now[c].(size := 0, position := 0, prevSize := 0) == was[c].(size := 0, position := 0, prevSize := 0)
  }

  lemma {:induction false} SizesSame(was: seq<ClusterPlan>, now: seq<ClusterPlan>, w: nat)
    requires SameInput(was, now)
    ensures Sizes(was, w) == Sizes(now, w)
  {
    hide ClusterSize;
    if |was| > 0 {
      var n := |was| - 1;
      assert was[n].(size := 0, position := 0, prevSize := 0) == now[n].(size := 0, position := 0, prevSize := 0);
      SizesSame(was[..n], now[..n], w);
    }
  }

  lemma {:induction false} SizesPrefix(clusters: seq<ClusterPlan>, w: nat, k: nat)
    requires k <= |clusters|
    ensures Sizes(clusters[..k], w) == Sizes(clusters, w)[..k]
    decreases |clusters| - k
  {
    hide ClusterSize;
    if k < |clusters| {
      SizesPrefix(clusters, w, k + 1);
      assert clusters[..k + 1][..k] == clusters[..k];
    } else {
      assert clusters[..k] == clusters;
    }
  }

  lemma SizeAt(clusters: seq<ClusterPlan>, w: nat, c: nat)
    requires c < |clusters|
    ensures var s := Sizes(clusters, w);
            s[c] == ClusterSize(clusters[c].ts, BlocksOf(clusters[c]), w, Prev(s, c))
  {
    hide ClusterSize;
    SizesPrefix(clusters, w, c + 1);
    SizesPrefix(clusters, w, c);
    assert clusters[..c + 1][..c] == clusters[..c];
  }

  /** First loop of a pass: predecessor sizes and sizes, front to back. */
  method SizePass(clusters: array<ClusterPlan>, posWidth: nat, ghost was: seq<ClusterPlan>) returns (total: nat)
    requires SameInput(was, clusters[..])
    modifies clusters
    ensures total == Sum(Sizes(was, posWidth), 0, |was|)
    ensures forall off :: PlacedTo(was, clusters[..], Sizes(was, posWidth), off, 0)
  {
    hide ClusterSize, Sizes;
    ghost var sizes := Sizes(was, posWidth);
    total := 0;
    var prev := 0;
    for c := 0 to clusters.Length
      invariant SameInput(was, clusters[..])
      invariant total == Sum(sizes, 0, c) && prev == Prev(sizes, c)
      invariant forall k :: 0 <= k < c ==> clusters[k].size == sizes[k] && clusters[k].prevSize == Prev(sizes, k)
    {
      SizeAt(was, posWidth, c);
      var p := clusters[c];
      assert p.(size := 0, position := 0, prevSize := 0) == was[c].(size := 0, position := 0, prevSize := 0);
      var size := ClusterSize(p.ts, BlocksOf(p), posWidth, prev);
      clusters[c] := p.(prevSize := prev, size := size);
      prev := size;
      total := total + size;
    }
  }

  /** Sizes are filled in, and the first `c` positions. */
  ghost predicate PlacedTo(was: seq<ClusterPlan>, now: seq<ClusterPlan>, sizes: seq<nat>, off: nat, c: nat)
    requires |sizes| == |was|
  {
    && SameInput(was, now)
    && (forall k :: 0 <= k < |was| ==> now[k].size == sizes[k] && now[k].prevSize == Prev(sizes, k))
    && (forall k :: 0 <= k < c && k < |was| ==> now[k].position == off + Sum(sizes, 0, k))
  }

  lemma PlaceNext(was: seq<ClusterPlan>, now: seq<ClusterPlan>, sizes: seq<nat>, off: nat, c: nat,
                  next: seq<ClusterPlan>)
    requires |sizes| == |was| && c < |was| && PlacedTo(was, now, sizes, off, c)
    requires next == now[c := now[c].(position := off + Sum(sizes, 0, c))]
    ensures PlacedTo(was, next, sizes, off, c + 1)
  {
    hide Sum;
  }

  lemma PlacedAll(was: seq<ClusterPlan>, now: seq<ClusterPlan>, posWidth: nat, off: nat)
    requires PlacedTo(was, now, Sizes(was, posWidth), off, |was|)
    ensures now == FilledAll(was, posWidth, off)
  {
    hide Sizes, Sum;
    var sizes := Sizes(was, posWidth);
    forall c | 0 <= c < |was| ensures now[c] == Filled(was[c], sizes, off, c) {
      assert now[c].(size := 0, position := 0, prevSize := 0) == was[c].(size := 0, position := 0, prevSize := 0);
    }
  }

  /** Second loop: positions. */
  method PositionPass(clusters: array<ClusterPlan>, off: nat, ghost posWidth: nat, ghost was: seq<ClusterPlan>)
    requires PlacedTo(was, clusters[..], Sizes(was, posWidth), off, 0)
    modifies clusters
    ensures SameInput(was, clusters[..]) && clusters[..] == FilledAll(was, posWidth, off)
  {
    hide Sizes, Sum, SameInput, PlacedTo, FilledAll;
    ghost var sizes := Sizes(was, posWidth);
    SumEmpty(sizes);
    PlacedFacts(was, clusters[..], sizes, off, 0);
    var at := 0;
    for c := 0 to clusters.Length
      invariant PlacedTo(was, clusters[..], sizes, off, c) && at == Sum(sizes, 0, c)
    {
      ghost var now := clusters[..];
      SumNext(sizes, c);
      PlacedFacts(was, now, sizes, off, c);
      clusters[c] := clusters[c].(position := off + at);
      PlaceNext(was, now, sizes, off, c, clusters[..]);
      at := at + clusters[c].size;
    }
    PlacedFacts(was, clusters[..], sizes, off, clusters.Length);
    PlacedAll(was, clusters[..], posWidth, off);
  }

  lemma PlacedFacts(was: seq<ClusterPlan>, now: seq<ClusterPlan>, sizes: seq<nat>, off: nat, c: nat)
    requires |sizes| == |was| && PlacedTo(was, now, sizes, off, c)
    ensures SameInput(was, now) && |now| == |was| && (c < |was| ==> now[c].size == sizes[c])
  {
    hide Sum;
  }

  lemma SumEmpty(s: seq<nat>)
    ensures Sum(s, 0, 0) == 0
  {}

  lemma SumNext(s: seq<nat>, c: nat)
    requires c < |s|
    ensures Sum(s, 0, c + 1) == Sum(s, 0, c) + s[c]
  {}

  method ComputeCuesContent(plans: seq<ClusterPlan>, posWidth: nat, frameDur: u64) returns (content: nat)
    ensures content == CRC_ELEMENT_LEN + CuePointsSize(plans, posWidth, frameDur)
  {
    hide CuePointSize, CueOf;
    content := CRC_ELEMENT_LEN;
    for c := 0 to |plans|
      invariant content == CRC_ELEMENT_LEN + CuePointsSize(plans[..c], posWidth, frameDur)
    {
      assert plans[..c + 1][..c] == plans[..c];
      content := content + CuePointSize(CueOf(plans[c], posWidth, frameDur));
    }
    assert plans[..|plans|] == plans;
  }

  /**
   * Iterates the size equations from the smallest triple. Always ends, at the least solution: the
   * clusters are filled in for it.
   */
  method ComputeLayout(infoSize: nat, tracksSize: nat, chaptersSize: nat, tagsSize: nat, clusters: array<ClusterPlan>,
                       frameDur: u64)
    returns (lay: Layout, ghost sol: Triple)
    requires Fits(Parts(infoSize, tracksSize, chaptersSize, tagsSize, clusters[..], frameDur))
    modifies clusters
    ensures var p := Parts(infoSize, tracksSize, chaptersSize, tagsSize, old(clusters[..]), frameDur);
            && Consistent(p, sol) && Least(p, sol) && Below(sol, Widest(p)) && lay == LayoutAt(p, sol)
            && clusters[..] == FilledAll(p.clusters, sol.posWidth, ClustersOff(p, sol))
  {
    hide Iterate, Fits, Room, SegmentContent, Sizes, Sum, FilledAll, SeekHeadSize, CuesSize, CuePointsSize, FileSize,
        UintSize;
    ghost var was := clusters[..];
    ghost var p := Parts(infoSize, tracksSize, chaptersSize, tagsSize, was, frameDur);
    var shSize: nat, cuesLen: nat, posWidth: nat := 0, 0, 1;
    StartIterates(p);
    while true
      invariant SameInput(was, clusters[..])
      invariant Iterate(p, Triple(shSize, cuesLen, posWidth))
      decreases Room(p, Triple(shSize, cuesLen, posWidth))
    {
      ghost var t := Triple(shSize, cuesLen, posWidth);
      IterateOn(p, t);
      RoomNonNegative(p, t);
      RoomNonNegative(p, Next(p, t));
      var total := SizePass(clusters, posWidth, was);
      var infoOff := shSize;
      var tracksOff := infoOff + infoSize;
      var chaptersOff := tracksOff + tracksSize;
      var tagsOff := chaptersOff + chaptersSize;
      var cuesOff := tagsOff + tagsSize;
      var clustersOff := cuesOff + cuesLen;
      PositionPass(clusters, clustersOff, posWidth, was);
      var seek := SeekTable(infoOff, tracksOff, if chaptersSize > 0 then Some(chaptersOff) else None, cuesOff, tagsOff);
      var newSh := SeekHeadSize(seek);
      var cuesInner := ComputeCuesContent(clusters[..], posWidth, frameDur);
      var newCues := CuesSize(cuesInner);
      var segmentContent := newSh + infoSize + tracksSize + chaptersSize + tagsSize + newCues + total;
      PassIsNext(p, t, seek, cuesInner, total, segmentContent);
      var fileSize := FileSize(segmentContent);
      var newPosWidth := UintSize(fileSize);
      if newSh == shSize && newCues == cuesLen && newPosWidth == posWidth {
        lay := Layout(seek, segmentContent, fileSize, posWidth, frameDur, cuesInner);
        sol := t;
        IterateBound(p, t);
        forall u | Consistent(p, u) ensures Below(sol, u) { LeastSolution(p, t, u); }
        return;
      }
      shSize, cuesLen, posWidth := newSh, newCues, newPosWidth;
    }
  }

  lemma PassIsNext(p: Parts, t: Triple, seek: SeekTable, cuesInner: nat, total: nat, content: nat)
    requires seek == SeekOf(p, t) && cuesInner == CuesContent(p, t)
    requires total == Sum(Sizes(p.clusters, t.posWidth), 0, |p.clusters|)
    requires content == SeekHeadSize(seek) + p.info + p.tracks + p.chapters + p.tags + CuesSize(cuesInner) + total
    ensures Next(p, t) == Triple(SeekHeadSize(seek), CuesSize(cuesInner), UintSize(FileSize(content)))
    ensures Next(p, t) == t ==> content == SegmentContent(p, t.posWidth, t.shSize, t.cuesLen)
  {
    hide Sizes, Sum, SeekHeadSize, SeekOf, CuesSize, CuesContent, FileSize, UintSize;
  }
}
