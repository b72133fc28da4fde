/** From packets to a finished file: plan every cluster, solve the layout, write header and clusters. */
module Muxer {
  import opened Bytes
  import opened Ebml
  import opened Ranges
  import opened Timestamps
  import opened ClusterPlans
  import opened Layouts
  import opened MatroskaFiles
  import opened ClusterBuild
  import Schedules
  import Indexes

  // ---- tracks

  ghost predicate AudioRaw(a: AudioTrack)
  {
    && |a.packets| == |a.tsMs| && (forall r :: r in a.packets ==> InRange(r, a.data))
    && AscendingPads(a.pads) && a.number < SIZE_LIMIT && (forall i :: 0 <= i < |a.tsMs| ==> a.tsMs[i] < Schedules.NEVER)
  }

  ghost predicate SubRaw(t: SubTrack)
  {
    && |t.packets| == |t.tsMs| == |t.durMs| && (forall r :: r in t.packets ==> InRange(r, t.data))
    && t.number < SIZE_LIMIT && (forall i :: 0 <= i < |t.tsMs| ==> t.tsMs[i] < Schedules.NEVER)
  }

  /** Split at the clusters' start times. */
  ghost predicate AudioSplit(audio: seq<AudioTrack>, starts: seq<u64>)
  {
    forall t :: 0 <= t < |audio| ==> AudioRaw(audio[t]) && Bounds(audio[t].tsMs, starts, audio[t].bounds)
  }

  ghost predicate SubsSplit(subs: seq<SubTrack>, starts: seq<u64>)
  {
    forall t :: 0 <= t < |subs| ==> SubRaw(subs[t]) && Bounds(subs[t].tsMs, starts, subs[t].bounds)
  }

  /** The octets all audio tracks put into cluster `c`. */
  function AudioShare(audio: seq<AudioTrack>, c: nat): nat
    requires forall t :: 0 <= t < |audio| ==> c + 1 < |audio[t].bounds|
  {
    if |audio| == 0 then 0
    else
      var n := |audio| - 1;
      AudioShare(audio[..n], c) + Share(AudioWeights(audio[n]), audio[n].bounds, c)
  }

  function SubShare(subs: seq<SubTrack>, c: nat): nat
    requires forall t :: 0 <= t < |subs| ==> c + 1 < |subs[t].bounds| && |subs[t].durMs| == |subs[t].packets|
  {
    if |subs| == 0 then 0
    else
      var n := |subs| - 1;
      SubShare(subs[..n], c) + Share(SubWeights(subs[n]), subs[n].bounds, c)
  }

  ghost predicate AudioPlanned(was: seq<ClusterPlan>, now: seq<ClusterPlan>, audio: seq<AudioTrack>)
  {
    && |now| == |was| && (forall t :: 0 <= t < |audio| ==> |audio[t].bounds| == |was| + 1)
    && forall c :: 0 <= c < |was| ==> now[c] == was[c].(sbTotal := was[c].sbTotal + AudioShare(audio, c))
  }

  ghost predicate SubsPlanned(was: seq<ClusterPlan>, now: seq<ClusterPlan>, subs: seq<SubTrack>)
  {
    && |now| == |was| && (forall t :: 0 <= t < |subs| ==>
                          |subs[t].bounds| == |was| + 1 && |subs[t].durMs| == |subs[t].packets|)
    && forall c :: 0 <= c < |was| ==> now[c] == was[c].(subTotal := was[c].subTotal + SubShare(subs, c))
  }

  lemma AudioPlannedOn(was: seq<ClusterPlan>, mid: seq<ClusterPlan>, now: seq<ClusterPlan>, audio: seq<AudioTrack>,
                       a: AudioTrack)
    requires AudioPlanned(was, mid, audio) && |now| == |mid| && |a.bounds| == |was| + 1
    requires forall c :: 0 <= c < |mid| ==>
             now[c] == mid[c].(sbTotal := mid[c].sbTotal + Share(AudioWeights(a), a.bounds, c))
    ensures AudioPlanned(was, now, audio + [a]) && Starts(now) == Starts(mid)
  {
    hide AudioWeights, Share;
    forall c | 0 <= c < |was| ensures AudioShare(audio + [a], c) == AudioShare(audio, c)
        + Share(AudioWeights(a), a.bounds, c) {
      assert (audio + [a])[..|audio|] == audio;
    }
  }

  lemma SubsPlannedOn(was: seq<ClusterPlan>, mid: seq<ClusterPlan>, now: seq<ClusterPlan>, subs: seq<SubTrack>,
                      a: SubTrack)
    requires SubsPlanned(was, mid, subs) && |now| == |mid| && |a.bounds| == |was| + 1 && |a.durMs| == |a.packets|
    requires forall c :: 0 <= c < |mid| ==>
             now[c] == mid[c].(subTotal := mid[c].subTotal + Share(SubWeights(a), a.bounds, c))
    ensures SubsPlanned(was, now, subs + [a]) && Starts(now) == Starts(mid)
  {
    hide SubWeights, Share;
    forall c | 0 <= c < |was| ensures SubShare(subs + [a], c) == SubShare(subs, c) + Share(SubWeights(a), a.bounds, c) {
      assert (subs + [a])[..|subs|] == subs;
    }
  }

  method AssignAudioTracks(plans: array<ClusterPlan>, tracks: seq<AudioTrack>) returns (audio: seq<AudioTrack>)
    requires plans.Length > 0 && forall t :: 0 <= t < |tracks| ==> AudioRaw(tracks[t])
    modifies plans
    ensures |audio| == |tracks| && forall t :: 0 <= t < |tracks| ==> audio[t] == tracks[t].(bounds := audio[t].bounds)
    ensures AudioSplit(audio, Starts(old(plans[..]))) && AudioPlanned(old(plans[..]), plans[..], audio)
  {
    hide AudioWeights, AudioSizes, Share, Cut, AscendingPads, InRange;
    ghost var was := plans[..];
    audio := [];
    for t := 0 to |tracks|
      invariant |audio| == t && forall k :: 0 <= k < t ==> audio[k] == tracks[k].(bounds := audio[k].bounds)
      invariant AudioSplit(audio, Starts(was)) && AudioPlanned(was, plans[..], audio)
                && Starts(plans[..]) == Starts(was)
    {
      ghost var mid := plans[..];
      var bounds := AssignAudio(plans, tracks[t].tsMs, Lens(tracks[t].packets), tracks[t].pads, tracks[t].number);
      var a := tracks[t].(bounds := bounds);
      AudioWeightsIs(tracks[t], bounds);
      AudioPlannedOn(was, mid, plans[..], audio, a);
      audio := audio + [a];
    }
  }

  lemma AudioWeightsIs(a: AudioTrack, bounds: seq<nat>)
    ensures AudioWeights(a.(bounds := bounds)) == AudioSizes(a.number, Lens(a.packets), a.pads)
  {}

  lemma SubWeightsIs(t: SubTrack, bounds: seq<nat>)
    requires |t.durMs| == |t.packets|
    ensures SubWeights(t.(bounds := bounds)) == SubSizes(t.number, Lens(t.packets), t.durMs)
  {}

  method AssignSubTracks(plans: array<ClusterPlan>, tracks: seq<SubTrack>) returns (subs: seq<SubTrack>)
    requires plans.Length > 0 && forall t :: 0 <= t < |tracks| ==> SubRaw(tracks[t])
    modifies plans
    ensures |subs| == |tracks| && forall t :: 0 <= t < |tracks| ==> subs[t] == tracks[t].(bounds := subs[t].bounds)
    ensures SubsSplit(subs, Starts(old(plans[..]))) && SubsPlanned(old(plans[..]), plans[..], subs)
  {
    hide SubWeights, SubSizes, Share, Cut, InRange;
    ghost var was := plans[..];
    subs := [];
    for t := 0 to |tracks|
      invariant |subs| == t && forall k :: 0 <= k < t ==> subs[k] == tracks[k].(bounds := subs[k].bounds)
      invariant SubsSplit(subs, Starts(was)) && SubsPlanned(was, plans[..], subs) && Starts(plans[..]) == Starts(was)
    {
      ghost var mid := plans[..];
      var bounds := AssignSubs(plans, tracks[t].tsMs, Lens(tracks[t].packets), tracks[t].durMs, tracks[t].number);
      var a := tracks[t].(bounds := bounds);
      SubWeightsIs(tracks[t], bounds);
      SubsPlannedOn(was, mid, plans[..], subs, a);
      subs := subs + [a];
    }
  }

  // ---- planning

  /** The encoded video: one cluster per chunk, its frames' extents, and the timestamps of all frames. */
  datatype Video = Video(isNal: bool, clusters: seq<seq<ByteRange>>, disp: seq<seq<nat>>, nals: seq<seq<ByteRange>>,
                         maps: seq<seq<byte>>, tab: seq<u64>)

  function NalsOf(v: Video, c: nat): seq<ByteRange>
    requires v.isNal ==> c < |v.nals|
  {
    if v.isNal then v.nals[c] else []
  }

  ghost predicate VideoRaw(v: Video)
  {
    && |v.clusters| > 0 && Displays(v.isNal, v.disp, v.clusters) && Ascending(v.tab) && FrameCount(v.clusters) < |v.tab|
    && |v.maps| == |v.clusters| && (v.isNal ==> |v.nals| == |v.clusters|)
    && forall c :: 0 <= c < |v.clusters| ==> FramesPresent(v, c)
  }

  ghost predicate FramesPresent(v: Video, c: nat)
    requires c < |v.clusters| == |v.maps| && (v.isNal ==> c < |v.nals|)
  {
    forall i :: 0 <= i < |v.clusters[c]| ==> FrameIn(v.isNal, v.clusters[c], NalsOf(v, c), v.maps[c], i)
  }

  /** Plans as the layout expects them: every block of the cluster counted, nothing placed yet. */
  ghost predicate PlansReady(v: Video, plans: seq<ClusterPlan>, audio: seq<AudioTrack>, subs: seq<SubTrack>)
  {
    && VideoRaw(v) && |plans| == |v.clusters|
    && AudioSplit(audio, Starts(plans)) && SubsSplit(subs, Starts(plans))
    && forall c :: 0 <= c < |plans| ==> PlanReady(v, plans[c], audio, subs, c)
  }

  ghost predicate PlanReady(v: Video, p: ClusterPlan, audio: seq<AudioTrack>, subs: seq<SubTrack>, c: nat)
    requires VideoRaw(v) && c < |v.clusters|
  {
    && Planned(p.(sbTotal := 0, subTotal := 0, size := 0, prevSize := 0, position := 0), v.clusters, v.isNal, v.disp,
               v.tab, c)
    && (forall t :: 0 <= t < |audio| ==> c + 1 < |audio[t].bounds|)
    && (forall t :: 0 <= t < |subs| ==> c + 1 < |subs[t].bounds| && |subs[t].durMs| == |subs[t].packets|)
    && p.sbTotal == AudioShare(audio, c) && p.subTotal == SubShare(subs, c)
  }

  method PlanAll(v: Video, tracks: seq<AudioTrack>, subTracks: seq<SubTrack>)
    returns (plans: array<ClusterPlan>, audio: seq<AudioTrack>, subs: seq<SubTrack>)
    requires VideoRaw(v) && (forall t :: 0 <= t < |tracks| ==> AudioRaw(tracks[t]))
             && forall t :: 0 <= t < |subTracks| ==> SubRaw(subTracks[t])
    ensures fresh(plans) && PlansReady(v, plans[..], audio, subs)
    ensures |audio| == |tracks| && forall t :: 0 <= t < |tracks| ==> audio[t] == tracks[t].(bounds := audio[t].bounds)
    ensures |subs| == |subTracks| && forall t :: 0 <= t < |subTracks| ==>
            subs[t] == subTracks[t].(bounds := subs[t].bounds)
  {
    hide AudioShare, SubShare, Bounds, AudioRaw, SubRaw, Displays, FrameIn, FramesPresent, AudioPlanned, SubsPlanned,
        AudioSplit, SubsSplit, Planned, PlansReady;
    var ps := PlanClusters(v.clusters, v.isNal, v.disp, v.tab);
    plans := new ClusterPlan[|ps|](i requires 0 <= i < |ps| => ps[i]);
    ghost var s0 := plans[..];
    assert s0 == ps;
    audio := AssignAudioTracks(plans, tracks);
    ghost var s1 := plans[..];
    subs := AssignSubTracks(plans, subTracks);
    AllReady(v, s0, s1, plans[..], audio, subs);
  }

  lemma AllReady(v: Video, s0: seq<ClusterPlan>, s1: seq<ClusterPlan>, s2: seq<ClusterPlan>, audio: seq<AudioTrack>,
                 subs: seq<SubTrack>)
    requires VideoRaw(v) && |s0| == |v.clusters| && AudioPlanned(s0, s1, audio) && SubsPlanned(s1, s2, subs)
    requires AudioSplit(audio, Starts(s0)) && SubsSplit(subs, Starts(s1))
    requires forall c :: 0 <= c < |s0| ==> Planned(s0[c], v.clusters, v.isNal, v.disp, v.tab, c)
    ensures PlansReady(v, s2, audio, subs)
  {
    hide AudioShare, SubShare, AudioSplit, SubsSplit, FramesIn, VideoSizes, FramesPresent, Displays;
    assert Starts(s0) == Starts(s1) == Starts(s2);
    forall c | 0 <= c < |s2| ensures PlanReady(v, s2[c], audio, subs, c) {
      assert Planned(s0[c], v.clusters, v.isNal, v.disp, v.tab, c);
    }
  }

  // ---- a planned cluster can be built

  function SourceAt(v: Video, p: ClusterPlan, audio: seq<AudioTrack>, subs: seq<SubTrack>, c: nat): Source
    requires c < |v.clusters| == |v.maps| && (v.isNal ==> c < |v.disp| && c < |v.nals|)
  {
    Source(v.isNal, v.clusters[c], DispOf(v.isNal, v.disp, c), NalsOf(v, c), v.maps[c], v.tab, p, audio, subs, c)
  }

  lemma AudioSplitOk(audio: seq<AudioTrack>, starts: seq<u64>, c: nat, t: nat)
    requires AudioSplit(audio, starts) && c < |starts| && t < |audio|
    ensures AudioOk(audio[t], c) && Schedules.LaneTimed(AudioLane(audio[t], c))
  {
    hide Cut, AscendingPads, InRange;
    BoundsFacts(audio[t].tsMs, starts, audio[t].bounds, c);
  }

  lemma SubSplitOk(subs: seq<SubTrack>, starts: seq<u64>, c: nat, t: nat)
    requires SubsSplit(subs, starts) && c < |starts| && t < |subs|
    ensures SubOk(subs[t], c) && Schedules.LaneTimed(SubLane(subs[t], c))
  {
    hide Cut, InRange;
    BoundsFacts(subs[t].tsMs, starts, subs[t].bounds, c);
  }

  lemma BoundsFacts(ts: seq<u64>, starts: seq<u64>, bounds: seq<nat>, c: nat)
    requires Bounds(ts, starts, bounds) && c < |starts|
    ensures c + 1 < |bounds| && bounds[c] <= bounds[c + 1] <= |ts|
  {
    hide Cut;
    BoundsAscend(ts, starts, bounds, c, c + 1);
  }

  lemma SourceReady(v: Video, plans: seq<ClusterPlan>, audio: seq<AudioTrack>, subs: seq<SubTrack>, c: nat)
    requires PlansReady(v, plans, audio, subs) && c < |plans|
    ensures c < |v.clusters| == |v.maps| && (v.isNal ==> c < |v.disp| && c < |v.nals|)
    ensures var s := SourceAt(v, plans[c], audio, subs, c);
            SourceOk(s) && Schedules.Timed(InputsOf(s)) && PlannedTotals(s)
  {
    hide AudioShare, SubShare, AudioSplit, SubsSplit, VideoSizes, FrameIn, Displays, AudioOk, SubOk,
        Schedules.LaneTimed, Schedules.LanesWeight, AudioWeights, SubWeights;
    assert PlanReady(v, plans[c], audio, subs, c);
    VideoReady(v, plans, audio, subs, c);
    forall t | 0 <= t < |audio| ensures AudioOk(audio[t], c) && c + 1 < |audio[t].bounds|
        && Schedules.LaneTimed(AudioLane(audio[t], c)) {
      AudioSplitOk(audio, Starts(plans), c, t);
    }
    forall t | 0 <= t < |subs| ensures SubOk(subs[t], c) && c + 1 < |subs[t].bounds|
        && |subs[t].durMs| == |subs[t].packets| && Schedules.LaneTimed(SubLane(subs[t], c)) {
      SubSplitOk(subs, Starts(plans), c, t);
    }
    TotalsReady(v, plans[c], audio, subs, c);
  }

  lemma VideoReady(v: Video, plans: seq<ClusterPlan>, audio: seq<AudioTrack>, subs: seq<SubTrack>, c: nat)
    requires PlansReady(v, plans, audio, subs) && c < |plans|
    ensures c < |v.clusters| == |v.maps| && (v.isNal ==> c < |v.disp| && c < |v.nals|)
    ensures VideoOk(SourceAt(v, plans[c], audio, subs, c))
  {
    hide AudioShare, SubShare, AudioSplit, SubsSplit, VideoSizes, FrameIn, Sum;
    assert PlanReady(v, plans[c], audio, subs, c);
    assert FramesPresent(v, c);
  }

  lemma TotalsReady(v: Video, p: ClusterPlan, audio: seq<AudioTrack>, subs: seq<SubTrack>, c: nat)
    requires VideoRaw(v) && c < |v.clusters| && PlanReady(v, p, audio, subs, c)
    requires c < |v.clusters| == |v.maps| && (v.isNal ==> c < |v.disp| && c < |v.nals|)
    requires SourceOk(SourceAt(v, p, audio, subs, c))
    ensures PlannedTotals(SourceAt(v, p, audio, subs, c))
  {
    hide AudioShare, SubShare, VideoSizes, FrameIn, FramesPresent, Displays, VideoOk, AudioOk, SubOk,
        Schedules.LanesWeight, AudioWeights, SubWeights, FramesIn;
    var s := SourceAt(v, p, audio, subs, c);
    var x, w, b := InputsOf(s), WeightsOf(s), Schedules.Begin(InputsOf(s));
    AudioLanesWeight(audio, c, x.audio, w.audio, b.audio);
    SubLanesWeight(subs, c, x.subs, w.subs, b.subs);
  }

  lemma {:induction false} AudioLanesWeight(audio: seq<AudioTrack>, c: nat, lanes: seq<Schedules.Lane>,
                                            ws: seq<seq<nat>>, from: seq<nat>)
    requires |lanes| == |ws| == |from| == |audio|
    requires forall t :: 0 <= t < |audio| ==> c + 1 < |audio[t].bounds|
    requires forall t :: 0 <= t < |audio| ==>
             lanes[t] == AudioLane(audio[t], c) && ws[t] == AudioWeights(audio[t]) && from[t] == lanes[t].lo
    ensures Schedules.LanesWeight(lanes, ws, from) == AudioShare(audio, c)
  {
    hide AudioWeights;
    if |audio| > 0 {
      var n := |audio| - 1;
      AudioLanesWeight(audio[..n], c, lanes[..n], ws[..n], from[..n]);
    }
  }

  lemma {:induction false} SubLanesWeight(subs: seq<SubTrack>, c: nat, lanes: seq<Schedules.Lane>, ws: seq<seq<nat>>,
                                          from: seq<nat>)
    requires |lanes| == |ws| == |from| == |subs|
    requires forall t :: 0 <= t < |subs| ==> c + 1 < |subs[t].bounds| && |subs[t].durMs| == |subs[t].packets|
    requires forall t :: 0 <= t < |subs| ==>
             lanes[t] == SubLane(subs[t], c) && ws[t] == SubWeights(subs[t]) && from[t] == lanes[t].lo
    ensures Schedules.LanesWeight(lanes, ws, from) == SubShare(subs, c)
  {
    hide SubWeights;
    if |subs| > 0 {
      var n := |subs| - 1;
      SubLanesWeight(subs[..n], c, lanes[..n], ws[..n], from[..n]);
    }
  }

  // ---- writing

  /** The layout only places the clusters. */
  lemma StillReady(v: Video, was: seq<ClusterPlan>, now: seq<ClusterPlan>, audio: seq<AudioTrack>, subs: seq<SubTrack>)
    requires PlansReady(v, was, audio, subs) && SameInput(was, now)
    ensures PlansReady(v, now, audio, subs)
  {
    hide AudioShare, SubShare, AudioSplit, SubsSplit, Planned, VideoRaw;
    assert forall c :: 0 <= c < |was| ==>
           now[c].(size := 0, position := 0, prevSize := 0) == was[c].(size := 0, position := 0, prevSize := 0);
    assert Starts(was) == Starts(now);
    forall c | 0 <= c < |now| ensures PlanReady(v, now[c], audio, subs, c) {
      assert PlanReady(v, was[c], audio, subs, c);
      assert now[c].(sbTotal := 0, subTotal := 0, size := 0, prevSize := 0, position := 0)
             == was[c].(sbTotal := 0, subTotal := 0, size := 0, prevSize := 0, position := 0);
    }
  }

  lemma FilledSame(clusters: seq<ClusterPlan>, posWidth: nat, off: nat)
    ensures SameInput(clusters, FilledAll(clusters, posWidth, off))
  {
    hide Sizes, Sum;
  }

  /** The blocks of every cluster. */
  ghost predicate BlocksAre(v: Video, plans: seq<ClusterPlan>, audio: seq<AudioTrack>, subs: seq<SubTrack>,
                            blocks: seq<seq<byte>>)
  {
    && PlansReady(v, plans, audio, subs) && |blocks| <= |plans|
    && forall c :: 0 <= c < |blocks| ==> ClusterBlocks(v, plans, audio, subs, c, blocks[c])
  }

  ghost predicate ClusterBlocks(v: Video, plans: seq<ClusterPlan>, audio: seq<AudioTrack>, subs: seq<SubTrack>, c: nat,
                                blocks: seq<byte>)
    requires PlansReady(v, plans, audio, subs) && c < |plans|
  {
    SourceReady(v, plans, audio, subs, c);
    blocks == BlocksBytes(SourceAt(v, plans[c], audio, subs, c)) && |blocks| == BlocksOf(plans[c])
  }

  lemma RegionFacts(h: HeaderParts, clusters: seq<ClusterPlan>, frameDur: u64, sol: Triple, lay: Layout,
                    plans: seq<ClusterPlan>, c: nat)
    requires LaidOut(h, clusters, frameDur, sol, lay, plans) && c < |plans|
    ensures lay.posWidth <= 8 && plans[c].prevSize < U64_LIMIT
    ensures plans[c].size == ClusterSize(plans[c].ts, BlocksOf(plans[c]), lay.posWidth, plans[c].prevSize) < SIZE_LIMIT
  {
    hide LaidOut, ClusterSize, Sizes, Sum, FileSize;
    LaidOutFits(h, clusters, frameDur, sol, lay, plans);
    PlanCount(h, clusters, frameDur, sol, lay, plans);
    PlanAt(h, clusters, frameDur, sol, lay, plans, c);
    SizeAt(clusters, sol.posWidth, c);
    Indexes.SameBlocks(plans[c], clusters[c]);
    ContentIs(h, clusters, frameDur, sol, lay, plans);
    SumHolds(Sizes(clusters, sol.posWidth), c);
  }

  /** One cluster in a region of its planned size. */
  method BuildRegion(v: Video, plans: seq<ClusterPlan>, audio: seq<AudioTrack>, subs: seq<SubTrack>, c: nat,
                     posWidth: nat,
                     ghost h: HeaderParts, ghost clusters: seq<ClusterPlan>, ghost frameDur: u64, ghost sol: Triple,
                         ghost lay: Layout)
    returns (bytes: seq<byte>, ghost blocks: seq<byte>)
    requires PlansReady(v, plans, audio, subs) && c < |plans|
    requires LaidOut(h, clusters, frameDur, sol, lay, plans) && posWidth == lay.posWidth
    ensures ClusterBlocks(v, plans, audio, subs, c, blocks)
    ensures bytes == Indexes.ClusterBytes(plans[c], posWidth, blocks) && |bytes| == plans[c].size
  {
    hide *;
    RegionFacts(h, clusters, frameDur, sol, lay, plans, c);
    SourceReady(v, plans, audio, subs, c);
    var s := SourceAt(v, plans[c], audio, subs, c);
    SourcePlan(v, plans[c], audio, subs, c);
    var region := new byte[plans[c].size](_ => 0);
    BuildCluster(region, s, posWidth);
    bytes := region[..];
    blocks := BlocksBytes(s);
    BlocksHold(v, plans, audio, subs, c, blocks);
  }

  lemma SourcePlan(v: Video, p: ClusterPlan, audio: seq<AudioTrack>, subs: seq<SubTrack>, c: nat)
    requires c < |v.clusters| == |v.maps| && (v.isNal ==> c < |v.disp| && c < |v.nals|)
    ensures SourceAt(v, p, audio, subs, c).plan == p
  {}

  lemma BlocksHold(v: Video, plans: seq<ClusterPlan>, audio: seq<AudioTrack>, subs: seq<SubTrack>, c: nat,
                   blocks: seq<byte>)
    requires PlansReady(v, plans, audio, subs) && c < |plans|
    requires c < |v.clusters| == |v.maps| && (v.isNal ==> c < |v.disp| && c < |v.nals|)
             && SourceOk(SourceAt(v, plans[c], audio, subs, c))
    requires blocks == BlocksBytes(SourceAt(v, plans[c], audio, subs, c)) && |blocks| == BlocksOf(plans[c])
    ensures ClusterBlocks(v, plans, audio, subs, c, blocks)
  {
    hide PlansReady, BlocksBytes, SourceOk, SourceAt;
  }

  /** The clusters up to `c` are built. */
  ghost predicate BuiltUpTo(v: Video, plans: seq<ClusterPlan>, audio: seq<AudioTrack>, subs: seq<SubTrack>,
                            posWidth: nat,
                            blocks: seq<seq<byte>>, rest: seq<byte>)
  {
    && BlocksAre(v, plans, audio, subs, blocks)
    && rest == Join(Indexes.ClusterRegions(plans[..|blocks|], posWidth, blocks))
  }

  lemma BuiltOn(v: Video, plans: seq<ClusterPlan>, audio: seq<AudioTrack>, subs: seq<SubTrack>, posWidth: nat,
                blocks: seq<seq<byte>>, rest: seq<byte>, block: seq<byte>)
    requires BuiltUpTo(v, plans, audio, subs, posWidth, blocks, rest) && |blocks| < |plans|
    requires ClusterBlocks(v, plans, audio, subs, |blocks|, block)
    ensures BuiltUpTo(v, plans, audio, subs, posWidth, blocks + [block],
                      rest + Indexes.ClusterBytes(plans[|blocks|], posWidth, block))
  {
    hide PlansReady, ClusterBlocks, Join, Indexes.ClusterBytes;
    var c := |blocks|;
    var more := blocks + [block];
    JoinSnoc(Indexes.ClusterRegions(plans[..c], posWidth, blocks), Indexes.ClusterBytes(plans[c], posWidth, block));
    assert Indexes.ClusterRegions(plans[..c + 1], posWidth, more)
           == Indexes.ClusterRegions(plans[..c], posWidth, blocks) + [Indexes.ClusterBytes(plans[c], posWidth, block)];
  }

  lemma BuiltNone(v: Video, plans: seq<ClusterPlan>, audio: seq<AudioTrack>, subs: seq<SubTrack>, posWidth: nat)
    requires PlansReady(v, plans, audio, subs)
    ensures BuiltUpTo(v, plans, audio, subs, posWidth, [], [])
  {
    hide PlansReady;
  }

  lemma BuiltAll(v: Video, plans: seq<ClusterPlan>, audio: seq<AudioTrack>, subs: seq<SubTrack>, posWidth: nat,
                 blocks: seq<seq<byte>>, rest: seq<byte>)
    requires BuiltUpTo(v, plans, audio, subs, posWidth, blocks, rest) && |blocks| == |plans|
    ensures BlocksAre(v, plans, audio, subs, blocks) && rest == Join(Indexes.ClusterRegions(plans, posWidth, blocks))
    ensures forall c :: 0 <= c < |plans| ==> |blocks[c]| == BlocksOf(plans[c])
  {
    hide PlansReady, Join, BlocksBytes, SourceOk, SourceAt;
    assert plans[..|plans|] == plans;
  }

  /**
   * Lays the planned clusters out at the least solution and writes the file: header elements, then
   * every cluster in turn. The octets written are exactly the planned file.
   */
  method MuxFile(h: HeaderParts, v: Video, plans: array<ClusterPlan>, audio: seq<AudioTrack>, subs: seq<SubTrack>,
                 frameDur: u64)
    returns (file: seq<byte>, lay: Layout, ghost sol: Triple, ghost blocks: seq<seq<byte>>)
    requires PlansReady(v, plans[..], audio, subs) && Fits(PartsOf(h, plans[..], frameDur))
    modifies plans
    ensures LaidOut(h, old(plans[..]), frameDur, sol, lay, plans[..])
    ensures Least(PartsOf(h, old(plans[..]), frameDur), sol)
    ensures BlocksAre(v, plans[..], audio, subs, blocks) && |blocks| == |plans[..]|
    ensures file == HeaderBytes(h, lay, plans[..]) + Join(Indexes.ClusterRegions(plans[..], lay.posWidth, blocks))
            && |file| == lay.fileSize
  {
    hide *;
    ghost var was := plans[..];
    PartsOfIs(h, was, frameDur);
    lay, sol := ComputeLayout(|InfoElem(h)|, |TracksElem(h)|, ChaptersLen(h), |TagsElem(h)|, plans, frameDur);
    var ps := plans[..];
    LaidOutIs(h, was, frameDur, sol, lay, ps);
    LaidOutSame(h, was, frameDur, sol, lay, ps);
    StillReady(v, was, ps, audio, subs);
    var dst := new byte[|HeaderBytes(h, lay, ps)|](_ => 0);
    ghost var d0 := dst[..];
    var pos := WriteHeaders(dst, h, lay, ps, was, frameDur, sol);
    WholeStored(d0, dst[..], HeaderBytes(h, lay, ps));
    file := dst[..];
    ghost var rest: seq<byte> := [];
    ghost var header := file;
    blocks := [];
    BuiltNone(v, ps, audio, subs, lay.posWidth);
    assert file == header + rest;
    for c := 0 to |ps|
      invariant file == header + rest && |blocks| == c && plans[..] == ps
      invariant BuiltUpTo(v, ps, audio, subs, lay.posWidth, blocks, rest)
    {
      var bytes, block := BuildRegion(v, ps, audio, subs, c, lay.posWidth, h, was, frameDur, sol, lay);
      BuiltOn(v, ps, audio, subs, lay.posWidth, blocks, rest, block);
      assert (header + rest) + bytes == header + (rest + bytes);
      file := file + bytes;
      rest := rest + bytes;
      blocks := blocks + [block];
    }
    BuiltAll(v, ps, audio, subs, lay.posWidth, blocks, rest);
    Indexes.RegionsSized(h, was, frameDur, sol, lay, ps, blocks);
    FileLength(h, was, frameDur, sol, lay, ps, Indexes.ClusterRegions(ps, lay.posWidth, blocks));
  }

  lemma PartsOfIs(h: HeaderParts, clusters: seq<ClusterPlan>, frameDur: u64)
    ensures PartsOf(h, clusters, frameDur) == Parts(|InfoElem(h)|, |TracksElem(h)|, ChaptersLen(h), |TagsElem(h)|,
                                                    clusters, frameDur)
  {
    hide InfoElem, TracksElem, TagsElem, ChaptersLen;
  }

  lemma LaidOutIs(h: HeaderParts, clusters: seq<ClusterPlan>, frameDur: u64, sol: Triple, lay: Layout,
                  plans: seq<ClusterPlan>)
    requires var p := PartsOf(h, clusters, frameDur);
             && Fits(p) && Consistent(p, sol) && Below(sol, Widest(p)) && lay == LayoutAt(p, sol)
             && plans == FilledAll(p.clusters, sol.posWidth, ClustersOff(p, sol)) && p.clusters == clusters
    ensures LaidOut(h, clusters, frameDur, sol, lay, plans)
  {
    hide Fits, Consistent, Below, Widest, LayoutAt, FilledAll, ClustersOff, PartsOf;
  }

  lemma LaidOutSame(h: HeaderParts, clusters: seq<ClusterPlan>, frameDur: u64, sol: Triple, lay: Layout,
                    plans: seq<ClusterPlan>)
    requires LaidOut(h, clusters, frameDur, sol, lay, plans)
    ensures SameInput(clusters, plans)
  {
    hide Fits, Consistent, Below, Widest, LayoutAt, FilledAll, ClustersOff, PartsOf;
    var p := PartsOf(h, clusters, frameDur);
    FilledSame(clusters, sol.posWidth, ClustersOff(p, sol));
  }

  lemma WholeStored(a: seq<byte>, b: seq<byte>, bytes: seq<byte>)
    requires Stored(a, b, 0, bytes) && |a| == |bytes|
    ensures b == bytes
  {}
}
