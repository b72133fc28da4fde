/** The order in which a cluster's packets are written: video, audio and subtitle tracks merged by time. */
module Schedules {
  import opened Bytes
  import opened ClusterPlans

  const NEVER: u64 := 0xFFFF_FFFF_FFFF_FFFF

  /** One audio or subtitle track's share of a cluster: packets [lo, hi). */
  datatype Lane = Lane(ts: seq<u64>, lo: nat, hi: nat)

  /** What a cluster draws from: the times of its video blocks in decode order, and its lanes. */
  datatype Inputs = Inputs(video: seq<u64>, audio: seq<Lane>, subs: seq<Lane>)

  datatype Item = Video(i: nat) | Audio(t: nat, i: nat) | Sub(t: nat, i: nat)

  /** Next packet of each track. */
  datatype Cursors = Cursors(vi: nat, audio: seq<nat>, subs: seq<nat>)

  // ---- the earliest lane

  ghost predicate LanesOk(lanes: seq<Lane>, cursors: seq<nat>)
  {
    |cursors| == |lanes| && forall t :: 0 <= t < |lanes| ==> lanes[t].lo <= cursors[t] <= lanes[t].hi <= |lanes[t].ts|
  }

  predicate Ready(lane: Lane, cursor: nat) { cursor < lane.hi && cursor < |lane.ts| }

  /** The time a lane waits with; `NEVER` once it has nothing left. */
  function Head(lane: Lane, cursor: nat): u64 { if Ready(lane, cursor) then lane.ts[cursor] else NEVER }

  /** The first lane with the smallest waiting time, and that time. */
  function Earliest(lanes: seq<Lane>, cursors: seq<nat>): (Option<nat>, u64)
    requires |cursors| == |lanes|
  {
    if |lanes| == 0 then (None, NEVER)
    else
      var n := |lanes| - 1;
      var best := Earliest(lanes[..n], cursors[..n]);
      var head := Head(lanes[n], cursors[n]);
      if head < best.1 then (Some(n), head) else best
  }

  /** No lane waits with less, and none before the chosen one with as little. */
  lemma {:induction false} EarliestLeast(lanes: seq<Lane>, cursors: seq<nat>)
    requires |cursors| == |lanes|
    ensures var (best, ts) := Earliest(lanes, cursors);
            && (forall t :: 0 <= t < |lanes| ==> ts <= Head(lanes[t], cursors[t]))
            && (best.None? ==> ts == NEVER)
            && (best.Some? ==> best.value < |lanes| && ts == Head(lanes[best.value], cursors[best.value]) < NEVER
                               && forall t :: 0 <= t < best.value ==> ts < Head(lanes[t], cursors[t]))
  {
    hide Head;
    if |lanes| > 0 {
      var n := |lanes| - 1;
      EarliestLeast(lanes[..n], cursors[..n]);
      HeadAtMost(lanes[n], cursors[n]);
    }
  }

  lemma HeadAtMost(lane: Lane, cursor: nat)
    ensures Head(lane, cursor) <= NEVER
  {}

  method FindEarliest(lanes: seq<Lane>, cursors: seq<nat>) returns (best: Option<nat>, bestTs: u64)
    requires |cursors| == |lanes|
    ensures (best, bestTs) == Earliest(lanes, cursors)
  {
    best, bestTs := None, NEVER;
    for t := 0 to |lanes|
      invariant (best, bestTs) == Earliest(lanes[..t], cursors[..t])
    {
      assert lanes[..t + 1][..t] == lanes[..t] && cursors[..t + 1][..t] == cursors[..t];
      var c := cursors[t];
      if Ready(lanes[t], c) && lanes[t].ts[c] < bestTs {
        bestTs := lanes[t].ts[c];
        best := Some(t);
      }
    }
    assert lanes[..|lanes|] == lanes && cursors[..|cursors|] == cursors;
  }

  // ---- the schedule

  ghost predicate Ok(x: Inputs, st: Cursors)
  {
    st.vi <= |x.video| && LanesOk(x.audio, st.audio) && LanesOk(x.subs, st.subs)
  }

  /** What comes next: video unless something else is strictly earlier, audio before subtitles. */
  function Step(x: Inputs, st: Cursors): Option<Item>
    requires |st.audio| == |x.audio| && |st.subs| == |x.subs|
  {
    var (bestA, aTs) := Earliest(x.audio, st.audio);
    var (bestS, sTs) := Earliest(x.subs, st.subs);
    if st.vi < |x.video| && x.video[st.vi] <= aTs && x.video[st.vi] <= sTs then Some(Video(st.vi))
    else if bestA.Some? && aTs <= sTs then
      (if bestA.value < |st.audio| then Some(Audio(bestA.value, st.audio[bestA.value])) else None)
    else if bestS.Some? then
      (if bestS.value < |st.subs| then Some(Sub(bestS.value, st.subs[bestS.value])) else None)
    else None
  }

  /** The item is among what is left. */
  ghost predicate Pending(x: Inputs, st: Cursors, item: Item)
  {
    match item
    case Video(i) => st.vi <= i < |x.video|
    case Audio(t, i) => t < |x.audio| && t < |st.audio| && st.audio[t] <= i < x.audio[t].hi
    case Sub(t, i) => t < |x.subs| && t < |st.subs| && st.subs[t] <= i < x.subs[t].hi
  }

  /** The item is the next of its track. */
  predicate Due(x: Inputs, st: Cursors, item: Item)
  {
    match item
    case Video(i) => i == st.vi < |x.video|
    case Audio(t, i) => t < |x.audio| && t < |st.audio| && i == st.audio[t] < x.audio[t].hi
    case Sub(t, i) => t < |x.subs| && t < |st.subs| && i == st.subs[t] < x.subs[t].hi
  }

  function After(st: Cursors, item: Item): Cursors
  {
    match item
    case Video(_) => st.(vi := st.vi + 1)
    case Audio(t, _) => if t < |st.audio| then st.(audio := st.audio[t := st.audio[t] + 1]) else st
    case Sub(t, _) => if t < |st.subs| then st.(subs := st.subs[t := st.subs[t] + 1]) else st
  }

  lemma StepDue(x: Inputs, st: Cursors)
    requires Ok(x, st)
    ensures Step(x, st).Some? ==> Due(x, st, Step(x, st).value) && Ok(x, After(st, Step(x, st).value))
  {
    hide Earliest;
    EarliestLeast(x.audio, st.audio);
    EarliestLeast(x.subs, st.subs);
  }

  /** Packets left in lanes. */
  function LanesLeft(lanes: seq<Lane>, cursors: seq<nat>): nat
    requires |cursors| == |lanes|
  {
    if |lanes| == 0 then 0
    else
      var n := |lanes| - 1;
      LanesLeft(lanes[..n], cursors[..n]) + if cursors[n] < lanes[n].hi then lanes[n].hi - cursors[n] else 0
  }

  lemma {:induction false} LanesLeftDrop(lanes: seq<Lane>, cursors: seq<nat>, t: nat)
    requires |cursors| == |lanes| && t < |lanes| && cursors[t] < lanes[t].hi
    ensures LanesLeft(lanes, cursors[t := cursors[t] + 1]) == LanesLeft(lanes, cursors) - 1
  {
    var n := |lanes| - 1;
    var moved := cursors[t := cursors[t] + 1];
    if t < n {
      assert moved[..n] == cursors[..n][t := cursors[t] + 1];
      LanesLeftDrop(lanes[..n], cursors[..n], t);
    } else {
      assert moved[..n] == cursors[..n];
    }
  }

  function Left(x: Inputs, st: Cursors): nat
    requires |st.audio| == |x.audio| && |st.subs| == |x.subs|
  {
    (if st.vi < |x.video| then |x.video| - st.vi else 0) + LanesLeft(x.audio, st.audio) + LanesLeft(x.subs, st.subs)
  }

  lemma LeftDrop(x: Inputs, st: Cursors, item: Item)
    requires Ok(x, st) && Due(x, st, item)
    ensures Left(x, After(st, item)) == Left(x, st) - 1
  {
    hide LanesLeft;
    match item
    case Video(_) =>
    case Audio(t, _) => LanesLeftDrop(x.audio, st.audio, t);
    case Sub(t, _) => LanesLeftDrop(x.subs, st.subs, t);
  }

  lemma StepOn(x: Inputs, st: Cursors)
    requires Ok(x, st) && Step(x, st).Some?
    ensures var item := Step(x, st).value;
            Due(x, st, item) && Ok(x, After(st, item)) && Left(x, After(st, item)) < Left(x, st)
  {
    hide Step, Left;
    StepDue(x, st);
    LeftDrop(x, st, Step(x, st).value);
  }

  /** Everything written from here on, in order. */
  ghost function Schedule(x: Inputs, st: Cursors): seq<Item>
    requires Ok(x, st)
    decreases Left(x, st)
  {
    match Step(x, st)
    case None => []
    case Some(item) =>
      StepOn(x, st);
      [item] + Schedule(x, After(st, item))
  }

  function Begin(x: Inputs): Cursors
  {
    Cursors(0, seq(|x.audio|, t requires 0 <= t < |x.audio| => x.audio[t].lo),
            seq(|x.subs|, t requires 0 <= t < |x.subs| => x.subs[t].lo))
  }

  ghost predicate Valid(x: Inputs) { Ok(x, Begin(x)) }

  // ---- exactly once

  datatype Track = VideoTrack | AudioTrack(t: nat) | SubTrack(t: nat)

  function TrackOf(item: Item): Track
  {
    match item case Video(_) => VideoTrack case Audio(t, _) => AudioTrack(t) case Sub(t, _) => SubTrack(t)
  }

  /** The packets of one track among the items, in order. */
  function PacketsOf(items: seq<Item>, track: Track): seq<nat>
  {
    if |items| == 0 then []
    else (if TrackOf(items[0]) == track then [items[0].i] else []) + PacketsOf(items[1..], track)
  }

  function Range(lo: nat, hi: nat): (s: seq<nat>)
    ensures |s| == if lo < hi then hi - lo else 0
  {
    if lo < hi then seq(hi - lo, k requires 0 <= k < hi - lo => lo + k) else []
  }

  /** (next, end) of a track. */
  function Span(x: Inputs, st: Cursors, track: Track): (nat, nat)
  {
    match track
    case VideoTrack => (st.vi, |x.video|)
    case AudioTrack(t) => if t < |x.audio| && t < |st.audio| then (st.audio[t], x.audio[t].hi) else (0, 0)
    case SubTrack(t) => if t < |x.subs| && t < |st.subs| then (st.subs[t], x.subs[t].hi) else (0, 0)
  }

  /** No packet carries the time that stands for "nothing left". */
  ghost predicate LaneTimed(lane: Lane)
  {
    forall i :: 0 <= i < |lane.ts| ==> lane.ts[i] < NEVER
  }

  ghost predicate Timed(x: Inputs)
  {
    && (forall t :: 0 <= t < |x.audio| ==> LaneTimed(x.audio[t]))
    && (forall t :: 0 <= t < |x.subs| ==> LaneTimed(x.subs[t]))
  }

  lemma HeadTimed(lane: Lane, cursor: nat)
    requires LaneTimed(lane) && lane.hi <= |lane.ts|
    ensures Head(lane, cursor) == NEVER <==> cursor >= lane.hi
  {}

  lemma StepNone(x: Inputs, st: Cursors)
    requires Ok(x, st) && Step(x, st).None?
    ensures Earliest(x.audio, st.audio).1 == NEVER && Earliest(x.subs, st.subs).1 == NEVER && st.vi == |x.video|
  {
    hide Earliest, Head;
    EarliestLeast(x.audio, st.audio);
    EarliestLeast(x.subs, st.subs);
    var (bestA, aTs) := Earliest(x.audio, st.audio);
    var (bestS, sTs) := Earliest(x.subs, st.subs);
    assert bestS.None?;
    assert sTs == NEVER;
    assert bestA.None?;
  }

  lemma LaneDone(lanes: seq<Lane>, cursors: seq<nat>, t: nat)
    requires LanesOk(lanes, cursors) && t < |lanes| && LaneTimed(lanes[t]) && Earliest(lanes, cursors).1 == NEVER
    ensures cursors[t] == lanes[t].hi
  {
    hide Earliest, Head, LaneTimed;
    EarliestLeast(lanes, cursors);
    HeadTimed(lanes[t], cursors[t]);
    HeadAtMost(lanes[t], cursors[t]);
    assert Earliest(lanes, cursors).1 <= Head(lanes[t], cursors[t]);
  }

  /** Nothing is left when nothing comes next. */
  lemma DoneIsAll(x: Inputs, st: Cursors, track: Track)
    requires Ok(x, st) && Timed(x) && Step(x, st).None?
    ensures var (next, end) := Span(x, st, track); next >= end
  {
    hide Earliest, Head, LaneTimed, Step;
    StepNone(x, st);
    match track
    case VideoTrack =>
    case AudioTrack(t) => if t < |x.audio| { LaneDone(x.audio, st.audio, t); }
    case SubTrack(t) => if t < |x.subs| { LaneDone(x.subs, st.subs, t); }
  }

  lemma SpanAfter(x: Inputs, st: Cursors, item: Item, track: Track)
    requires Ok(x, st) && Due(x, st, item)
    ensures var (next, end) := Span(x, st, track);
            Span(x, After(st, item), track) == if TrackOf(item) == track then (next + 1, end) else (next, end)
    ensures TrackOf(item) == track ==> item.i == Span(x, st, track).0 < Span(x, st, track).1
  {}

  lemma ScheduleIs(x: Inputs, st: Cursors)
    requires Ok(x, st)
    ensures |st.audio| == |x.audio| && |st.subs| == |x.subs|
    ensures Step(x, st).None? ==> Schedule(x, st) == []
    ensures Step(x, st).Some? ==>
      var item := Step(x, st).value;
      && Due(x, st, item) && Ok(x, After(st, item)) && Left(x, After(st, item)) < Left(x, st)
      && Schedule(x, st) == [item] + Schedule(x, After(st, item))
  {
    hide Step, Left, After, Due;
    if Step(x, st).Some? { StepOn(x, st); }
  }

  lemma PacketsOfCons(item: Item, rest: seq<Item>, track: Track)
    ensures PacketsOf([item] + rest, track) == (if TrackOf(item) == track then [item.i] else [])
            + PacketsOf(rest, track)
  {
    assert ([item] + rest)[1..] == rest;
  }

  lemma RangeCons(lo: nat, hi: nat)
    requires lo < hi
    ensures Range(lo, hi) == [lo] + Range(lo + 1, hi)
  {}

  /** Each track's packets appear exactly once each, in order. */
  lemma {:induction false} ExactlyOnce(x: Inputs, st: Cursors, track: Track)
    requires Ok(x, st) && Timed(x)
    ensures PacketsOf(Schedule(x, st), track) == Range(Span(x, st, track).0, Span(x, st, track).1)
    decreases Left(x, st)
  {
    hide Step, After, Due, Ok, Timed, Span, Left, Schedule, Range;
    ScheduleIs(x, st);
    match Step(x, st)
    case None =>
      DoneIsAll(x, st, track);
      RangeEmpty(Span(x, st, track).0, Span(x, st, track).1);
    case Some(item) =>
      ExactlyOnce(x, After(st, item), track);
      SpanAfter(x, st, item, track);
      PacketsOfCons(item, Schedule(x, After(st, item)), track);
      if TrackOf(item) == track { RangeCons(Span(x, st, track).0, Span(x, st, track).1); }
  }

  lemma RangeEmpty(lo: nat, hi: nat)
    requires lo >= hi
    ensures Range(lo, hi) == []
  {}

  // ---- in order of time

  ghost predicate Ordered(x: Inputs)
  {
    && Sorted(x.video)
    && (forall t :: 0 <= t < |x.audio| ==> Sorted(x.audio[t].ts))
    && (forall t :: 0 <= t < |x.subs| ==> Sorted(x.subs[t].ts))
  }

  /** A packet of the cluster's share of its track. */
  ghost predicate Within(x: Inputs, item: Item)
  {
    match item
    case Video(i) => i < |x.video|
    case Audio(t, i) => t < |x.audio| && i < |x.audio[t].ts|
    case Sub(t, i) => t < |x.subs| && i < |x.subs[t].ts|
  }

  function TimeOf(x: Inputs, item: Item): u64
    requires Within(x, item)
  {
    match item
    case Video(i) => x.video[i]
    case Audio(t, i) => x.audio[t].ts[i]
    case Sub(t, i) => x.subs[t].ts[i]
  }

  /** Video, then audio, then subtitles; within a kind by track, within a track by packet. */
  predicate Before(a: Item, b: Item)
  {
    match a
    case Video(i) => b.Video? ==> i < b.i
    case Audio(t, i) => b.Sub? || (b.Audio? && (t < b.t || (t == b.t && i < b.i)))
    case Sub(t, i) => b.Sub? && (t < b.t || (t == b.t && i < b.i))
  }

  predicate Precedes(x: Inputs, a: Item, b: Item)
    requires Within(x, a) && Within(x, b)
  {
    TimeOf(x, a) < TimeOf(x, b) || (TimeOf(x, a) == TimeOf(x, b) && Before(a, b))
  }

  lemma PendingWithin(x: Inputs, st: Cursors, item: Item)
    requires Ok(x, st) && (Pending(x, st, item) || Due(x, st, item))
    ensures Within(x, item)
  {}

  /** A lane's later packets are no earlier than the one it waits with. */
  lemma LaneLater(lane: Lane, cursor: nat, i: nat)
    requires Sorted(lane.ts) && cursor <= i < lane.hi <= |lane.ts|
    ensures Head(lane, cursor) == lane.ts[cursor] <= lane.ts[i]
  {}

  /** The step's time against what every track waits with. */
  lemma StepLeast(x: Inputs, st: Cursors)
    requires Ok(x, st) && Ordered(x) && Step(x, st).Some?
    ensures var item := Step(x, st).value;
            && Within(x, item)
            && (st.vi < |x.video| ==>
                if item.Video? then TimeOf(x, item) == x.video[st.vi] else TimeOf(x, item) < x.video[st.vi])
            && (forall t :: 0 <= t < |x.audio| ==>
                 var h := Head(x.audio[t], st.audio[t]);
                 TimeOf(x, item) <= h && ((item.Sub? || (item.Audio? && t < item.t)) ==> TimeOf(x, item) < h))
            && (forall t :: 0 <= t < |x.subs| ==>
                 var h := Head(x.subs[t], st.subs[t]);
                 TimeOf(x, item) <= h && ((item.Sub? && t < item.t) ==> TimeOf(x, item) < h))
  {
    hide Earliest, Head, Sorted;
    StepDue(x, st);
    EarliestLeast(x.audio, st.audio);
    EarliestLeast(x.subs, st.subs);
    var (bestA, aTs) := Earliest(x.audio, st.audio);
    var (bestS, sTs) := Earliest(x.subs, st.subs);
    match Step(x, st).value {
      case Video(_) =>
      case Audio(t, i) =>
        LaneLater(x.audio[t], i, i);
        assert aTs <= sTs;
      case Sub(t, i) =>
        LaneLater(x.subs[t], i, i);
        assert sTs < aTs;
    }
  }

  /** The step taken precedes everything else left. */
  lemma StepFirst(x: Inputs, st: Cursors, other: Item)
    requires Ok(x, st) && Ordered(x) && Step(x, st).Some? && Pending(x, st, other) && other != Step(x, st).value
    ensures var item := Step(x, st).value; Within(x, item) && Within(x, other) && Precedes(x, item, other)
  {
    hide Step, Head, Sorted;
    StepDue(x, st);
    StepLeast(x, st);
    match other
    case Video(i) => SortedAt(x.video, st.vi, i);
    case Audio(t, i) => LaneLater(x.audio[t], st.audio[t], i);
    case Sub(t, i) => LaneLater(x.subs[t], st.subs[t], i);
  }

  lemma SortedAt(ts: seq<u64>, i: nat, j: nat)
    requires Sorted(ts) && i <= j < |ts|
    ensures ts[i] <= ts[j]
  {}

  /** What is still pending after a step was pending before it, and is not the step. */
  lemma PendingBack(x: Inputs, st: Cursors, item: Item, other: Item)
    requires Ok(x, st) && Due(x, st, item) && Pending(x, After(st, item), other)
    ensures Pending(x, st, other) && other != item
  {}

  lemma DuePending(x: Inputs, st: Cursors, item: Item)
    requires Ok(x, st) && Due(x, st, item)
    ensures Pending(x, st, item)
  {}

  lemma {:induction false} ScheduledPending(x: Inputs, st: Cursors, k: nat)
    requires Ok(x, st) && k < |Schedule(x, st)|
    ensures Pending(x, st, Schedule(x, st)[k])
    decreases Left(x, st)
  {
    hide Step, After, Due, Ok, Pending, Left, Schedule;
    ScheduleIs(x, st);
    var item := Step(x, st).value;
    if k == 0 {
      DuePending(x, st, item);
    } else {
      ScheduledPending(x, After(st, item), k - 1);
      PendingBack(x, st, item, Schedule(x, After(st, item))[k - 1]);
    }
  }

  /** From tracks in time order the schedule is strictly in order: by time, then video, audio, subtitles. */
  lemma {:induction false} InOrder(x: Inputs, st: Cursors, j: nat, k: nat)
    requires Ok(x, st) && Ordered(x) && j < k < |Schedule(x, st)|
    ensures var s := Schedule(x, st); Within(x, s[j]) && Within(x, s[k]) && Precedes(x, s[j], s[k])
    decreases Left(x, st)
  {
    hide Step, After, Due, Ok, Ordered, Pending, Left, Within, Precedes, Schedule;
    ScheduleIs(x, st);
    var item := Step(x, st).value;
    var rest := Schedule(x, After(st, item));
    if j > 0 {
      InOrder(x, After(st, item), j - 1, k - 1);
    } else {
      ScheduledPending(x, After(st, item), k - 1);
      PendingBack(x, st, item, rest[k - 1]);
      StepFirst(x, st, rest[k - 1]);
    }
  }

  // ---- sizes add up

  datatype Weights = Weights(video: seq<nat>, audio: seq<seq<nat>>, subs: seq<seq<nat>>)

  ghost predicate LanesWeighed(lanes: seq<Lane>, ws: seq<seq<nat>>)
  {
    |ws| == |lanes| && forall t :: 0 <= t < |lanes| ==> |ws[t]| == |lanes[t].ts|
  }

  ghost predicate Weighed(x: Inputs, w: Weights)
  {
    |w.video| == |x.video| && LanesWeighed(x.audio, w.audio) && LanesWeighed(x.subs, w.subs)
  }

  function WeightOf(w: Weights, item: Item): nat
  {
    match item
    case Video(i) => if i < |w.video| then w.video[i] else 0
    case Audio(t, i) => if t < |w.audio| && i < |w.audio[t]| then w.audio[t][i] else 0
    case Sub(t, i) => if t < |w.subs| && i < |w.subs[t]| then w.subs[t][i] else 0
  }

  function Total(w: Weights, items: seq<Item>): nat
  {
    if |items| == 0 then 0 else WeightOf(w, items[0]) + Total(w, items[1..])
  }

  function LanesWeight(lanes: seq<Lane>, ws: seq<seq<nat>>, cursors: seq<nat>): nat
    requires |ws| == |lanes| == |cursors|
  {
    if |lanes| == 0 then 0
    else
      var n := |lanes| - 1;
      LanesWeight(lanes[..n], ws[..n], cursors[..n]) + Sum(ws[n], cursors[n], lanes[n].hi)
  }

  lemma SumHead(s: seq<nat>, lo: nat, hi: nat)
    requires lo < hi <= |s|
    ensures Sum(s, lo, hi) == s[lo] + Sum(s, lo + 1, hi)
  {
    SumSplit(s, lo, lo + 1, hi);
    assert Sum(s, lo, lo) == 0;
  }

  lemma {:induction false} LanesWeightDrop(lanes: seq<Lane>, ws: seq<seq<nat>>, cursors: seq<nat>, t: nat)
    requires |ws| == |lanes| == |cursors| && t < |lanes| && cursors[t] < lanes[t].hi <= |ws[t]|
    ensures LanesWeight(lanes, ws, cursors) == ws[t][cursors[t]] + LanesWeight(lanes, ws, cursors[t := cursors[t] + 1])
  {
    hide Sum;
    var n := |lanes| - 1;
    var moved := cursors[t := cursors[t] + 1];
    if t < n {
      assert moved[..n] == cursors[..n][t := cursors[t] + 1];
      LanesWeightDrop(lanes[..n], ws[..n], cursors[..n], t);
    } else {
      assert moved[..n] == cursors[..n];
      SumHead(ws[n], cursors[n], lanes[n].hi);
    }
  }

  function Remaining(x: Inputs, w: Weights, st: Cursors): nat
    requires |w.audio| == |x.audio| == |st.audio| && |w.subs| == |x.subs| == |st.subs|
  {
    Sum(w.video, st.vi, |x.video|) + LanesWeight(x.audio, w.audio, st.audio) + LanesWeight(x.subs, w.subs, st.subs)
  }

  ghost predicate Countable(x: Inputs, w: Weights, st: Cursors)
  {
    && |w.audio| == |x.audio| == |st.audio| && |w.subs| == |x.subs| == |st.subs|
    && Ok(x, st) && Weighed(x, w)
  }

  lemma RemainingDrop(x: Inputs, w: Weights, st: Cursors, item: Item)
    requires Countable(x, w, st) && Due(x, st, item) && Ok(x, After(st, item))
    ensures Countable(x, w, After(st, item))
    ensures Remaining(x, w, st) == WeightOf(w, item) + Remaining(x, w, After(st, item))
  {
    hide LanesWeight, Sum;
    match item
    case Video(i) => SumHead(w.video, st.vi, |x.video|);
    case Audio(t, i) => LanesWeightDrop(x.audio, w.audio, st.audio, t);
    case Sub(t, i) => LanesWeightDrop(x.subs, w.subs, st.subs, t);
  }

  lemma {:induction false} LanesWeightDone(lanes: seq<Lane>, ws: seq<seq<nat>>, cursors: seq<nat>)
    requires |ws| == |lanes| == |cursors| && forall t :: 0 <= t < |lanes| ==> cursors[t] >= lanes[t].hi
    ensures LanesWeight(lanes, ws, cursors) == 0
  {
    if |lanes| > 0 {
      var n := |lanes| - 1;
      LanesWeightDone(lanes[..n], ws[..n], cursors[..n]);
    }
  }

  lemma RemainingDone(x: Inputs, w: Weights, st: Cursors)
    requires Countable(x, w, st) && Timed(x) && Step(x, st).None?
    ensures Remaining(x, w, st) == 0
  {
    hide LanesWeight, Step, Timed, Ok, Weighed;
    DoneIsAll(x, st, VideoTrack);
    forall t | 0 <= t < |x.audio| ensures st.audio[t] >= x.audio[t].hi { DoneIsAll(x, st, AudioTrack(t)); }
    forall t | 0 <= t < |x.subs| ensures st.subs[t] >= x.subs[t].hi { DoneIsAll(x, st, SubTrack(t)); }
    LanesWeightDone(x.audio, w.audio, st.audio);
    LanesWeightDone(x.subs, w.subs, st.subs);
  }

  lemma TotalCons(w: Weights, item: Item, rest: seq<Item>)
    ensures Total(w, [item] + rest) == WeightOf(w, item) + Total(w, rest)
  {
    assert ([item] + rest)[1..] == rest;
  }

  /** What is written weighs what the tracks hold. */
  lemma {:induction false} ScheduleWeight(x: Inputs, w: Weights, st: Cursors)
    requires Countable(x, w, st) && Timed(x)
    ensures Total(w, Schedule(x, st)) == Remaining(x, w, st)
    decreases Left(x, st)
  {
    hide Step, After, Due, Ok, Timed, Left, Schedule, Remaining, WeightOf, Weighed;
    ScheduleIs(x, st);
    match Step(x, st)
    case None => RemainingDone(x, w, st);
    case Some(item) =>
      RemainingDrop(x, w, st, item);
      ScheduleWeight(x, w, After(st, item));
      TotalCons(w, item, Schedule(x, After(st, item)));
  }
}
