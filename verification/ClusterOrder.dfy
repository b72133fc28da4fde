/** What a built cluster holds: each track's share once, in time order, video first. */
module ClusterOrder {
  import opened Bytes
  import opened Timestamps
  import opened ClusterPlans
  import opened ClusterBuild
  import Schedules

  /** The cluster's packets in the order they are written. */
  ghost function Scheduled(s: Source): seq<Schedules.Item>
    requires SourceOk(s)
  {
    Schedules.Schedule(InputsOf(s), Schedules.Begin(InputsOf(s)))
  }

  /** Every frame of the cluster and every packet of each track's share appear exactly once, in track order. */
  lemma ShareExactlyOnce(s: Source, t: nat)
    requires SourceOk(s) && Schedules.Timed(InputsOf(s))
    ensures Schedules.PacketsOf(Scheduled(s), Schedules.VideoTrack) == Schedules.Range(0, |s.blocks|)
    ensures t < |s.audio| ==>
      Schedules.PacketsOf(Scheduled(s), Schedules.AudioTrack(t))
      == Schedules.Range(s.audio[t].bounds[s.ci], s.audio[t].bounds[s.ci + 1])
    ensures t < |s.subs| ==>
      Schedules.PacketsOf(Scheduled(s), Schedules.SubTrack(t))
      == Schedules.Range(s.subs[t].bounds[s.ci], s.subs[t].bounds[s.ci + 1])
  {
    hide Schedules.Timed, Schedules.PacketsOf, Schedules.Range, Schedules.Schedule, VideoOk;
    var x := InputsOf(s);
    Schedules.ExactlyOnce(x, Schedules.Begin(x), Schedules.VideoTrack);
    Schedules.ExactlyOnce(x, Schedules.Begin(x), Schedules.AudioTrack(t));
    Schedules.ExactlyOnce(x, Schedules.Begin(x), Schedules.SubTrack(t));
  }

  /** The shares of all clusters partition a track: packet `i` belongs to exactly one. */
  lemma {:induction false} OneCluster(ts: seq<u64>, starts: seq<u64>, bounds: seq<nat>, i: nat, n: nat) returns (c: nat)
    requires Bounds(ts, starts, bounds) && n <= |starts| && |starts| > 0 && i < bounds[n]
    ensures c < n && bounds[c] <= i < bounds[c + 1]
    ensures forall d :: 0 <= d < |starts| && bounds[d] <= i < bounds[d + 1] ==> d == c
  {
    hide Cut;
    if i < bounds[n - 1] {
      c := OneCluster(ts, starts, bounds, i, n - 1);
    } else {
      c := n - 1;
      forall d | 0 <= d < |starts| && bounds[d] <= i < bounds[d + 1] ensures d == c {
        if d < c { BoundsAscend(ts, starts, bounds, d + 1, c); }
        if d > c { BoundsAscend(ts, starts, bounds, c + 1, d); }
      }
    }
  }

  /** Tracks whose packets do not step back in time. */
  ghost predicate TracksSorted(s: Source)
  {
    && (forall t :: 0 <= t < |s.audio| ==> Sorted(s.audio[t].tsMs))
    && (forall t :: 0 <= t < |s.subs| ==> Sorted(s.subs[t].tsMs))
  }

  lemma VideoSorted(tab: seq<u64>, base: nat, n: nat)
    requires Ascending(tab) && base + n <= |tab|
    ensures Sorted(tab[base..base + n])
  {}

  /** Written strictly in order: by time, then video before audio before subtitles. */
  lemma WrittenInOrder(s: Source, j: nat, k: nat)
    requires SourceOk(s) && TracksSorted(s) && j < k < |Scheduled(s)|
    ensures var x := InputsOf(s);
            && Schedules.Within(x, Scheduled(s)[j]) && Schedules.Within(x, Scheduled(s)[k])
            && Schedules.Precedes(x, Scheduled(s)[j], Scheduled(s)[k])
  {
    hide Schedules.Schedule, Schedules.Precedes, Schedules.Within, Sorted, Ascending, FrameOk;
    var x := InputsOf(s);
    VideoSorted(s.pts, s.plan.baseFrame, |s.blocks|);
    Schedules.InOrder(x, Schedules.Begin(x), j, k);
  }

  // ---- the block a cue leads to

  /** No packet of the cluster's share is before the cluster. */
  ghost predicate StartsWithVideo(s: Source)
  {
    && |s.blocks| > 0
    && (forall t, i ::
          && 0 <= t < |s.audio| && 0 <= i < |s.audio[t].tsMs| && s.ci + 1 < |s.audio[t].bounds|
          && s.audio[t].bounds[s.ci] <= i < s.audio[t].bounds[s.ci + 1]
          ==> s.plan.ts <= s.audio[t].tsMs[i])
    && (forall t, i ::
          && 0 <= t < |s.subs| && 0 <= i < |s.subs[t].tsMs| && s.ci + 1 < |s.subs[t].bounds|
          && s.subs[t].bounds[s.ci] <= i < s.subs[t].bounds[s.ci + 1]
          ==> s.plan.ts <= s.subs[t].tsMs[i])
  }

  lemma {:induction false} EarliestAtLeast(lanes: seq<Schedules.Lane>, cursors: seq<nat>, ts: u64)
    requires |cursors| == |lanes| && forall t :: 0 <= t < |lanes| ==> ts <= Schedules.Head(lanes[t], cursors[t])
    ensures ts <= Schedules.Earliest(lanes, cursors).1
  {
    hide Schedules.Head;
    if |lanes| > 0 {
      var n := |lanes| - 1;
      EarliestAtLeast(lanes[..n], cursors[..n], ts);
    }
  }

  lemma {:induction false} ItemsFirst(s: Source, items: seq<Schedules.Item>)
    requires SourceOk(s) && AllWithin(s, items) && |items| > 0
    ensures |ItemBlock(s, items[0])| <= |ItemsBytes(s, items)|
    ensures ItemsBytes(s, items)[..|ItemBlock(s, items[0])|] == ItemBlock(s, items[0])
    decreases items
  {
    hide SourceOk, ItemBlock, Schedules.Within, InputsOf;
    var n := |items| - 1;
    if n > 0 {
      ItemsFirst(s, items[..n]);
    } else {
      assert items[..0] == [];
    }
  }

  /** The first block, where the cue's relative position leads, is the cluster's first video frame. */
  lemma CueHitsVideo(s: Source)
    requires SourceOk(s) && StartsWithVideo(s)
    ensures |Scheduled(s)| > 0 && Scheduled(s)[0] == Schedules.Video(0)
    ensures |VideoBlock(s, 0)| <= |BlocksBytes(s)| && BlocksBytes(s)[..|VideoBlock(s, 0)|] == VideoBlock(s, 0)
  {
    hide FrameOk, FramesIn, VideoBlock, ItemsBytes, Schedules.Earliest, Schedules.Schedule, AllWithin;
    var x := InputsOf(s);
    var begin := Schedules.Begin(x);
    HeadsLate(s);
    EarliestAtLeast(x.audio, begin.audio, s.plan.ts);
    EarliestAtLeast(x.subs, begin.subs, s.plan.ts);
    Schedules.ScheduleIs(x, begin);
    ScheduleWithin(s, begin);
    ItemsFirst(s, Scheduled(s));
  }

  lemma HeadsLate(s: Source)
    requires SourceOk(s) && StartsWithVideo(s)
    ensures var x := InputsOf(s);
            var begin := Schedules.Begin(x);
            && x.video[0] == s.plan.ts
            && (forall t :: 0 <= t < |x.audio| ==> s.plan.ts <= Schedules.Head(x.audio[t], begin.audio[t]))
            && (forall t :: 0 <= t < |x.subs| ==> s.plan.ts <= Schedules.Head(x.subs[t], begin.subs[t]))
  {
    hide FrameOk;
  }

  /** From sorted tracks split at the clusters' starts, every cluster starts with its first frame. */
  lemma SplitStartsWithVideo(s: Source, starts: seq<u64>)
    requires SourceOk(s) && TracksSorted(s) && |s.blocks| > 0 && s.ci < |starts| && starts[s.ci] == s.plan.ts
    requires s.ci == 0 ==> s.plan.ts == 0
    requires forall t :: 0 <= t < |s.audio| ==> Bounds(s.audio[t].tsMs, starts, s.audio[t].bounds)
    requires forall t :: 0 <= t < |s.subs| ==> Bounds(s.subs[t].tsMs, starts, s.subs[t].bounds)
    ensures StartsWithVideo(s)
  {
    hide Bounds, VideoOk, Sorted;
    forall t, i | 0 <= t < |s.audio| && 0 <= i < |s.audio[t].tsMs|
        && s.audio[t].bounds[s.ci] <= i < s.audio[t].bounds[s.ci + 1]
      ensures s.plan.ts <= s.audio[t].tsMs[i]
    {
      PlacedByTime(s.audio[t].tsMs, starts, s.audio[t].bounds, s.ci, i);
    }
    forall t, i | 0 <= t < |s.subs| && 0 <= i < |s.subs[t].tsMs|
        && s.subs[t].bounds[s.ci] <= i < s.subs[t].bounds[s.ci + 1]
      ensures s.plan.ts <= s.subs[t].tsMs[i]
    {
      PlacedByTime(s.subs[t].tsMs, starts, s.subs[t].bounds, s.ci, i);
    }
  }
}
