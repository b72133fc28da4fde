/** Planning clusters: which packets go to which cluster, and how many octets each takes. */
module ClusterPlans {
  import opened Bytes
  import opened Blocks
  import opened Timestamps
  import opened Ranges

  datatype ClusterPlan = ClusterPlan(
    baseFrame: nat,
    ts: u64,
    bgTotal: nat,
    sbTotal: nat,
    subTotal: nat,
    size: nat,
    position: nat,
    prevSize: nat)

  datatype Pad = Pad(packet: nat, ns: i64)

  /** The total of s[lo..hi]. */
  function Sum(s: seq<nat>, lo: nat, hi: nat): nat
    decreases hi
  {
    if lo >= hi || hi > |s| then 0 else Sum(s, lo, hi - 1) + s[hi - 1]
  }

  lemma {:induction false} SumSplit(s: seq<nat>, lo: nat, mid: nat, hi: nat)
    requires lo <= mid <= hi <= |s|
    ensures Sum(s, lo, hi) == Sum(s, lo, mid) + Sum(s, mid, hi)
  {
    if mid < hi { SumSplit(s, lo, mid, hi - 1); }
  }

  /** The octets of cluster `c` when a track is split at `bounds`. */
  function Share(sizes: seq<nat>, bounds: seq<nat>, c: nat): nat
    requires c + 1 < |bounds|
  {
    Sum(sizes, bounds[c], bounds[c + 1])
  }

  // ---- video

  /** The frame whose timestamp block `i` carries: display rank for NAL codecs, else decode order. */
  function FrameOf(isNal: bool, disp: seq<nat>, base: nat, i: nat): nat
    requires isNal ==> i < |disp|
  {
    base + if isNal then disp[i] else i
  }

  /** Every frame of a cluster has an entry in the table, and a next one. */
  ghost predicate FramesIn(tab: seq<u64>, isNal: bool, disp: seq<nat>, base: nat, n: nat)
  {
    && Ascending(tab) && base + n < |tab|
    && (isNal ==> |disp| == n && forall i :: 0 <= i < n ==> disp[i] < n)
  }

  function VideoSize(b: ByteRange, i: nat, tab: seq<u64>, f: nat, ts: u64): nat
    requires Ascending(tab) && f + 1 < |tab|
  {
    var (rel, dur) := Timing(tab, f, ts);
    BlockGroupSize(1, b.len, i == 0, rel, dur)
  }

  function VideoSizes(blocks: seq<ByteRange>, tab: seq<u64>, isNal: bool, disp: seq<nat>, base: nat): seq<nat>
    requires FramesIn(tab, isNal, disp, base, |blocks|)
  {
    seq(|blocks|, i requires 0 <= i < |blocks| => VideoSize(blocks[i], i, tab, FrameOf(isNal, disp, base, i),
                                                            tab[base]))
  }

  method PlanCluster(blocks: seq<ByteRange>, isNal: bool, disp: seq<nat>, base: nat, tab: seq<u64>)
    returns (p: ClusterPlan)
    requires FramesIn(tab, isNal, disp, base, |blocks|)
    ensures p == ClusterPlan(base, tab[base], Sum(VideoSizes(blocks, tab, isNal, disp, base), 0, |blocks|), 0, 0, 0, 0,
                             0)
  {
    hide BlockGroupSize, Timing;
    var ts := tab[base];
    var bgTotal := 0;
    ghost var sizes := VideoSizes(blocks, tab, isNal, disp, base);
    for i := 0 to |blocks|
      invariant bgTotal == Sum(sizes, 0, i)
    {
      var f := FrameOf(isNal, disp, base, i);
      var (rel, dur) := Timing(tab, f, ts);
      bgTotal := bgTotal + BlockGroupSize(1, blocks[i].len, i == 0, rel, dur);
      assert sizes[i] == VideoSize(blocks[i], i, tab, f, ts);
    }
    p := ClusterPlan(base, ts, bgTotal, 0, 0, 0, 0, 0);
  }

  function FrameCount(clusters: seq<seq<ByteRange>>): nat
  {
    if |clusters| == 0 then 0 else FrameCount(clusters[..|clusters| - 1]) + |clusters[|clusters| - 1]|
  }

  lemma {:induction false} FrameCountMono(clusters: seq<seq<ByteRange>>, k: nat)
    requires k <= |clusters|
    ensures FrameCount(clusters[..k]) <= FrameCount(clusters)
    ensures k < |clusters| ==> FrameCount(clusters[..k]) + |clusters[k]| <= FrameCount(clusters)
    decreases |clusters| - k
  {
    if k < |clusters| {
      assert clusters[..k + 1][..k] == clusters[..k];
      FrameCountMono(clusters, k + 1);
    } else {
      assert clusters[..k] == clusters;
    }
  }

  /** Display ranks given per cluster exactly for NAL codecs. */
  function DispOf(isNal: bool, disp: seq<seq<nat>>, c: nat): seq<nat>
    requires isNal ==> c < |disp|
  {
    if isNal then disp[c] else []
  }

  ghost predicate Displays(isNal: bool, disp: seq<seq<nat>>, clusters: seq<seq<ByteRange>>)
  {
    isNal ==> (
      && |disp| == |clusters|
      && forall c :: 0 <= c < |disp| ==>
           |disp[c]| == |clusters[c]| && forall i :: 0 <= i < |disp[c]| ==> disp[c][i] < |disp[c]|)
  }

  /** Clusters follow one another: each starts at the frame the earlier ones end on. */
  method PlanClusters(clusters: seq<seq<ByteRange>>, isNal: bool, disp: seq<seq<nat>>, tab: seq<u64>)
    returns (plans: seq<ClusterPlan>)
    requires Displays(isNal, disp, clusters) && Ascending(tab) && FrameCount(clusters) < |tab|
    ensures |plans| == |clusters|
    ensures forall c :: 0 <= c < |plans| ==> Planned(plans[c], clusters, isNal, disp, tab, c)
  {
    hide VideoSizes, Sum;
    plans := [];
    var base := 0;
    for c := 0 to |clusters|
      invariant |plans| == c && base == FrameCount(clusters[..c])
      invariant forall k :: 0 <= k < c ==> Planned(plans[k], clusters, isNal, disp, tab, k)
    {
      FrameCountMono(clusters, c);
      assert clusters[..c + 1][..c] == clusters[..c];
      var p := PlanCluster(clusters[c], isNal, DispOf(isNal, disp, c), base, tab);
      plans := plans + [p];
      base := base + |clusters[c]|;
    }
  }

  ghost predicate Planned(p: ClusterPlan, clusters: seq<seq<ByteRange>>, isNal: bool, disp: seq<seq<nat>>,
                          tab: seq<u64>, c: nat)
    requires c < |clusters| && Displays(isNal, disp, clusters)
  {
    var base, d := FrameCount(clusters[..c]), DispOf(isNal, disp, c);
    && FramesIn(tab, isNal, d, base, |clusters[c]|)
    && p == ClusterPlan(base, tab[base], Sum(VideoSizes(clusters[c], tab, isNal, d, base), 0, |clusters[c]|), 0, 0, 0,
                        0, 0)
  }

  // ---- packets by time

  /** `b` is the first packet from `lo` on that is not before time `t`. */
  ghost predicate Cut(ts: seq<u64>, t: u64, lo: nat, b: nat)
  {
    lo <= b <= |ts| && (forall i :: lo <= i < b ==> ts[i] < t) && (b < |ts| ==> ts[b] >= t)
  }

  /** Split points of a track: cluster c takes the packets in [bounds[c], bounds[c + 1]). */
  ghost predicate Bounds(ts: seq<u64>, starts: seq<u64>, bounds: seq<nat>)
  {
    && |bounds| == |starts| + 1 && bounds[0] == 0 && bounds[|starts|] == |ts|
    && (forall c :: 1 <= c < |starts| ==> Cut(ts, starts[c], bounds[c - 1], bounds[c]))
  }

  /** The clusters' packet ranges follow one another without gap. */
  lemma {:induction false} BoundsAscend(ts: seq<u64>, starts: seq<u64>, bounds: seq<nat>, c: nat, d: nat)
    requires Bounds(ts, starts, bounds) && |starts| > 0 && c <= d <= |starts|
    ensures bounds[c] <= bounds[d] <= |ts|
    decreases d - c
  {
    if c < d {
      BoundsAscend(ts, starts, bounds, c, d - 1);
      if d < |starts| { assert Cut(ts, starts[d], bounds[d - 1], bounds[d]); }
    } else if 1 <= c < |starts| {
      assert Cut(ts, starts[c], bounds[c - 1], bounds[c]);
    }
  }

  ghost predicate Sorted(ts: seq<u64>)
  {
    forall i, j :: 0 <= i <= j < |ts| ==> ts[i] <= ts[j]
  }

  /** Sorted packets land in the cluster whose time span holds them. */
  lemma PlacedByTime(ts: seq<u64>, starts: seq<u64>, bounds: seq<nat>, c: nat, i: nat)
    requires Bounds(ts, starts, bounds) && Sorted(ts) && c < |starts|
    requires bounds[c] <= i < bounds[c + 1] && i < |ts|
    ensures c > 0 ==> ts[i] >= starts[c]
    ensures c + 1 < |starts| ==> ts[i] < starts[c + 1]
  {
    if c > 0 {
      assert Cut(ts, starts[c], bounds[c - 1], bounds[c]);
      BoundsAscend(ts, starts, bounds, c, c + 1);
      assert ts[bounds[c]] <= ts[i];
    }
    if c + 1 < |starts| { assert Cut(ts, starts[c + 1], bounds[c], bounds[c + 1]); }
  }

  function Starts(plans: seq<ClusterPlan>): (s: seq<u64>)
    ensures |s| == |plans| && forall c :: 0 <= c < |s| ==> s[c] == plans[c].ts
  {
    seq(|plans|, c requires 0 <= c < |plans| => plans[c].ts)
  }

  // ---- pads

  /** `partition_point` of `packet < from`. */
  function PadsBefore(pads: seq<Pad>, from: nat): (k: nat)
    ensures k <= |pads|
  {
    if |pads| > 0 && pads[0].packet < from then 1 + PadsBefore(pads[1..], from) else 0
  }

  lemma {:induction false} PadsBeforeIs(pads: seq<Pad>, from: nat, k: nat)
    requires k <= |pads|
    ensures k == PadsBefore(pads, from)
       <==> (forall i :: 0 <= i < k ==> pads[i].packet < from) && (k < |pads| ==> pads[k].packet >= from)
  {
    if |pads| > 0 && pads[0].packet < from && k > 0 {
      PadsBeforeIs(pads[1..], from, k - 1);
      assert forall i :: 0 <= i < k - 1 ==> pads[1..][i] == pads[i + 1];
    }
  }

  ghost predicate AscendingPads(pads: seq<Pad>)
  {
    forall i, j :: 0 <= i < j < |pads| ==> pads[i].packet < pads[j].packet
  }

  /** The pad of a packet, if it has one. */
  function PadAt(pads: seq<Pad>, packet: nat): Option<i64>
  {
    var k := PadsBefore(pads, packet);
    if k < |pads| && pads[k].packet == packet then Some(pads[k].ns) else None
  }

  /** A pad is found exactly where one is listed. */
  lemma PadAtListed(pads: seq<Pad>, k: nat)
    requires AscendingPads(pads) && k < |pads|
    ensures PadAt(pads, pads[k].packet) == Some(pads[k].ns)
  {
    PadsBeforeIs(pads, pads[k].packet, k);
  }

  // ---- audio

  function AudioSize(track: nat, len: nat, pad: Option<i64>): nat
  {
    match pad
    case Some(ns) => PadGroupSize(track, len, ns)
    case None => SimpleBlockSize(track, len)
  }

  function AudioSizes(track: nat, lens: seq<nat>, pads: seq<Pad>): (s: seq<nat>)
    ensures |s| == |lens|
  {
    seq(|lens|, i requires 0 <= i < |lens| => AudioSize(track, lens[i], PadAt(pads, i)))
  }

  /** What cluster `c` got of the packets scanned so far. */
  function Scanned(sizes: seq<nat>, bounds: seq<nat>, ci: nat, pi: nat, c: nat): nat
    requires ci < |bounds| && c + 1 < |bounds|
  {
    if c < ci then Share(sizes, bounds, c) else if c == ci then Sum(sizes, bounds[c], pi) else 0
  }

  /** Inside the scan: clusters up to `ci` have their split points, and nothing since belongs further on. */
  ghost predicate Scanning(ts: seq<u64>, starts: seq<u64>, bounds: seq<nat>, ci: nat, pi: nat)
  {
    && ci < |starts| && |bounds| == |starts| + 1 && bounds[0] == 0
    && bounds[ci] <= pi <= |ts|
    && (forall c :: 1 <= c <= ci ==> Cut(ts, starts[c], bounds[c - 1], bounds[c]))
    && (ci + 1 < |starts| ==> forall i :: bounds[ci] <= i < pi ==> ts[i] < starts[ci + 1])
  }

  /** Audio octets went to the clusters scanned, nothing else changed. */
  ghost predicate AudioAdded(was: seq<ClusterPlan>, now: seq<ClusterPlan>, sizes: seq<nat>, bounds: seq<nat>, ci: nat,
                             pi: nat)
    requires ci < |was| && |bounds| == |was| + 1
  {
    && |now| == |was|
    && forall c :: 0 <= c < |was| ==>
         now[c] == was[c].(sbTotal := was[c].sbTotal + Scanned(sizes, bounds, ci, pi, c))
  }

  /** The scan may move to the next cluster. */
  lemma ScanOn(ts: seq<u64>, starts: seq<u64>, bounds: seq<nat>, ci: nat, pi: nat, moved: seq<nat>)
    requires Scanning(ts, starts, bounds, ci, pi) && ci + 1 < |starts| && pi < |ts| && ts[pi] >= starts[ci + 1]
    requires moved == bounds[ci + 1 := pi]
    ensures Scanning(ts, starts, moved, ci + 1, pi)
  {
    forall c | 1 <= c <= ci + 1 ensures Cut(ts, starts[c], moved[c - 1], moved[c]) {
      if c <= ci { assert Cut(ts, starts[c], bounds[c - 1], bounds[c]); }
    }
  }

  lemma ScanOnShares(sizes: seq<nat>, bounds: seq<nat>, ci: nat, pi: nat, moved: seq<nat>, c: nat)
    requires ci + 2 < |bounds| && c + 1 < |bounds| && moved == bounds[ci + 1 := pi]
    ensures Scanned(sizes, moved, ci + 1, pi, c) == Scanned(sizes, bounds, ci, pi, c)
  {}

  lemma ScanEnds(ts: seq<u64>, starts: seq<u64>, bounds: seq<nat>, ci: nat, out: seq<nat>)
    requires Scanning(ts, starts, bounds, ci, |ts|)
    requires |out| == |bounds| && (forall b :: 0 <= b <= ci ==> out[b] == bounds[b])
    requires forall b :: ci + 1 <= b < |out| ==> out[b] == |ts|
    ensures Bounds(ts, starts, out)
  {
    forall c | 1 <= c < |starts| ensures Cut(ts, starts[c], out[c - 1], out[c]) {
      if c <= ci { assert Cut(ts, starts[c], bounds[c - 1], bounds[c]); }
    }
  }

  method AssignAudio(plans: array<ClusterPlan>, tsMs: seq<u64>, lens: seq<nat>, pads: seq<Pad>, track: nat)
    returns (out: seq<nat>)
    requires |lens| == |tsMs| && AscendingPads(pads) && plans.Length > 0
    modifies plans
    ensures Bounds(tsMs, Starts(old(plans[..])), out)
    ensures forall c :: 0 <= c < plans.Length ==>
      plans[c] == old(plans[c]).(sbTotal := old(plans[c].sbTotal) + Share(AudioSizes(track, lens, pads), out, c))
  {
    hide AudioSize, PadAt, Cut, Bounds, Scanned, PadsBefore, Sum, Scanning;
    var n := plans.Length;
    var bounds := new nat[n + 1](_ => 0);
    var ci, pk := 0, 0;
    ghost var was := plans[..];
    ghost var starts := Starts(was);
    ghost var sizes := AudioSizes(track, lens, pads);
    PadsBeforeIs(pads, 0, 0);
    ScanBegins(tsMs, starts, bounds[..], sizes);
    for pi := 0 to |tsMs|
      invariant ci < n && pk == PadsBefore(pads, pi)
      invariant Scanning(tsMs, starts, bounds[..], ci, pi)
      invariant AudioAdded(was, plans[..], sizes, bounds[..], ci, pi)
    {
      while ci + 1 < n && tsMs[pi] >= plans[ci + 1].ts
        invariant ci < n
        invariant Scanning(tsMs, starts, bounds[..], ci, pi)
        invariant AudioAdded(was, plans[..], sizes, bounds[..], ci, pi)
        decreases n - ci
      {
        ghost var b := bounds[..];
        bounds[ci + 1] := pi;
        ScanOn(tsMs, starts, b, ci, pi, bounds[..]);
        forall c | 0 <= c < n { ScanOnShares(sizes, b, ci, pi, bounds[..], c); }
        ci := ci + 1;
      }
      var octets;
      octets, pk := AudioOctets(track, lens[pi], pads, pk, pi);
      ScanPacket(tsMs, starts, bounds[..], ci, pi, sizes);
      plans[ci] := plans[ci].(sbTotal := plans[ci].sbTotal + octets);
    }
    ghost var b := bounds[..];
    forall k | ci + 1 <= k <= n { bounds[k] := |tsMs|; }
    out := bounds[..];
    ScanEnds(tsMs, starts, b, ci, out);
    forall c | 0 <= c < n { SharesEnd(sizes, b, ci, |tsMs|, out, c); }
  }

  lemma ScanBegins(ts: seq<u64>, starts: seq<u64>, bounds: seq<nat>, sizes: seq<nat>)
    requires 0 < |starts| && |bounds| == |starts| + 1 && forall c :: 0 <= c < |bounds| ==> bounds[c] == 0
    ensures Scanning(ts, starts, bounds, 0, 0)
    ensures forall c :: 0 <= c < |starts| ==> Scanned(sizes, bounds, 0, 0, c) == 0
  {}

  /** Packet `pi` goes to cluster `ci`. */
  lemma ScanPacket(ts: seq<u64>, starts: seq<u64>, bounds: seq<nat>, ci: nat, pi: nat, sizes: seq<nat>)
    requires Scanning(ts, starts, bounds, ci, pi) && pi < |ts| == |sizes|
    requires ci + 1 < |starts| ==> ts[pi] < starts[ci + 1]
    ensures Scanning(ts, starts, bounds, ci, pi + 1)
    ensures forall c :: 0 <= c < |starts| ==>
      Scanned(sizes, bounds, ci, pi + 1, c) == Scanned(sizes, bounds, ci, pi, c) + if c == ci then sizes[pi] else 0
  {}

  lemma SharesEnd(sizes: seq<nat>, bounds: seq<nat>, ci: nat, n: nat, out: seq<nat>, c: nat)
    requires ci < |bounds| && c + 1 < |bounds| == |out| && (forall b :: 0 <= b <= ci ==> out[b] == bounds[b])
    requires forall b :: ci + 1 <= b < |out| ==> out[b] == n
    ensures Share(sizes, out, c) == Scanned(sizes, bounds, ci, n, c)
  {}

  /** The octets of packet `pi`, the pad cursor moved past it. */
  method AudioOctets(track: nat, len: nat, pads: seq<Pad>, pk0: nat, pi: nat) returns (octets: nat, pk: nat)
    requires AscendingPads(pads) && pk0 == PadsBefore(pads, pi)
    ensures octets == AudioSize(track, len, PadAt(pads, pi)) && pk == PadsBefore(pads, pi + 1)
  {
    hide PadsBefore, PadGroupSize, SimpleBlockSize;
    pk := pk0;
    PadsBeforeIs(pads, pi, pk0);
    if pk < |pads| && pads[pk].packet == pi {
      octets := PadGroupSize(track, len, pads[pk].ns);
      pk := pk + 1;
    } else {
      octets := SimpleBlockSize(track, len);
    }
    PadsBeforeIs(pads, pi + 1, pk);
  }

  // ---- subtitles

  function SubSizes(track: nat, lens: seq<nat>, durs: seq<u64>): (s: seq<nat>)
    requires |durs| == |lens|
    ensures |s| == |lens|
  {
    seq(|lens|, i requires 0 <= i < |lens| => BlockGroupSize(track, lens[i], true, 0, durs[i]))
  }

  ghost predicate SubsAdded(was: seq<ClusterPlan>, now: seq<ClusterPlan>, sizes: seq<nat>, bounds: seq<nat>, ci: nat,
                            pi: nat)
    requires ci < |was| && |bounds| == |was| + 1
  {
    && |now| == |was|
    && forall c :: 0 <= c < |was| ==>
         now[c] == was[c].(subTotal := was[c].subTotal + Scanned(sizes, bounds, ci, pi, c))
  }

  method AssignSubs(plans: array<ClusterPlan>, tsMs: seq<u64>, lens: seq<nat>, durs: seq<u64>, track: nat)
    returns (out: seq<nat>)
    requires |lens| == |tsMs| == |durs| && plans.Length > 0
    modifies plans
    ensures Bounds(tsMs, Starts(old(plans[..])), out)
    ensures forall c :: 0 <= c < plans.Length ==>
      plans[c] == old(plans[c]).(subTotal := old(plans[c].subTotal) + Share(SubSizes(track, lens, durs), out, c))
  {
    hide Cut, Bounds, Scanned, Sum, Scanning, BlockGroupSize;
    var n := plans.Length;
    var bounds := new nat[n + 1](_ => 0);
    var ci := 0;
    ghost var was := plans[..];
    ghost var starts := Starts(was);
    ghost var sizes := SubSizes(track, lens, durs);
    ScanBegins(tsMs, starts, bounds[..], sizes);
    for pi := 0 to |tsMs|
      invariant ci < n
      invariant Scanning(tsMs, starts, bounds[..], ci, pi)
      invariant SubsAdded(was, plans[..], sizes, bounds[..], ci, pi)
    {
      while ci + 1 < n && tsMs[pi] >= plans[ci + 1].ts
        invariant ci < n
        invariant Scanning(tsMs, starts, bounds[..], ci, pi)
        invariant SubsAdded(was, plans[..], sizes, bounds[..], ci, pi)
        decreases n - ci
      {
        ghost var b := bounds[..];
        bounds[ci + 1] := pi;
        ScanOn(tsMs, starts, b, ci, pi, bounds[..]);
        forall c | 0 <= c < n { ScanOnShares(sizes, b, ci, pi, bounds[..], c); }
        ci := ci + 1;
      }
      ScanPacket(tsMs, starts, bounds[..], ci, pi, sizes);
      plans[ci] := plans[ci].(subTotal := plans[ci].subTotal + BlockGroupSize(track, lens[pi], true, 0, durs[pi]));
    }
    ghost var b := bounds[..];
    forall k | ci + 1 <= k <= n { bounds[k] := |tsMs|; }
    out := bounds[..];
    ScanEnds(tsMs, starts, b, ci, out);
    forall c | 0 <= c < n { SharesEnd(sizes, b, ci, |tsMs|, out, c); }
  }
}
