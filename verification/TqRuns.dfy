/**
 * The target-quality pipeline with the search as its judge: every run is bounded, and goes on until
 * the ring is closed.
 */
module TqRuns {
  import opened Bytes
  import opened TqPipeline
  import Search = TqSearch
  import Outcome = TqOutcome

  // ---- what a run costs

  /** Steps a metric worker's package or buffer is sure to take before it is scored again. */
  function MetricWeight(m: Metric): nat
  {
    match m
    case Returning(_) => 9
    case Finishing(_) => 3
    case Giving(_) => 1
    case _ => 0
  }

  function MetricsWeight(ms: seq<Metric>): nat
  {
    if |ms| == 0 then 0 else MetricsWeight(ms[..|ms| - 1]) + MetricWeight(ms[|ms| - 1])
  }

  lemma {:induction false} WeightSet(ms: seq<Metric>, w: nat, m: Metric)
    requires w < |ms|
    ensures MetricsWeight(ms[w := m]) + MetricWeight(ms[w]) == MetricsWeight(ms) + MetricWeight(m)
  {
    var n := |ms| - 1;
    if w < n {
      assert ms[w := m][..n] == ms[..n][w := m];
      WeightSet(ms[..n], w, m);
    } else {
      assert ms[w := m][..n] == ms[..n];
    }
  }

  /** Steps due without another chunk being decoded or scored. */
  function Due(s: Pipe): nat
  {
    9 * HandCount(All, s.decoder) + 8 * CoordCount(All, s.coord) + Reports(s.coord) + 7 * HandCount(All, s.coordinator)
    + 6 * QueueCount(All, s.enc) + 5 * HandsCount(All, s.encoders) + 4 * QueueCount(All, s.met)
        + MetricsWeight(s.metrics)
    + if s.closed then 0 else 1
  }

  /** Every step is one less due; decoding and scoring bring at most nine more. */
  ghost predicate StepsDown(s: Pipe, a: Action)
    requires Enabled(s, a)
  {
    Due(Do(s, a)) + 1 <= Due(s) + if a.Decode? || a.Score? then 10 else 0
  }

  lemma CoordinatorDue(s: Pipe, a: Action)
    requires Enabled(s, a) && (a.Decode? || a.DecodeSend? || a.Receive? || a.Send? || a.Close?)
    ensures StepsDown(s, a)
  {
    hide CoordCount, Reports, HandsCount, MetricsWeight, QueueCount;
    match a
    case DecodeSend => CoordPush(All, s.coord, Package(s.decoder.c));
    case Receive => CoordPop(All, s.coord);
    case Send => QueuePush(All, s.enc, s.coordinator.c);
    case _ =>
  }

  lemma EncoderDue(s: Pipe, a: Action)
    requires Enabled(s, a) && (a.EncReceive? || a.EncSend?)
    ensures StepsDown(s, a)
  {
    hide CoordCount, Reports, HandsCount, MetricsWeight, QueueCount;
    match a
    case EncReceive(w) =>
      QueuePop(All, s.enc);
      HandsSet(All, s.encoders, w, Holds(s.enc[0]));
    case EncSend(w) =>
      QueuePush(All, s.met, s.encoders[w].c);
      HandsSet(All, s.encoders, w, Empty);
  }

  lemma MetricDue(s: Pipe, a: Action)
    requires Enabled(s, a) && (a.MetReceive? || a.Score? || a.Return? || a.Finish? || a.Give?)
    ensures StepsDown(s, a)
  {
    hide CoordCount, Reports, HandsCount, MetricsWeight, QueueCount;
    WeightSet(s.metrics, a.w, Do(s, a).metrics[a.w]);
    match a
    case MetReceive(w) => QueuePop(All, s.met);
    case Return(w) => CoordPush(All, s.coord, Package(s.metrics[w].c));
    case Finish(w) => CoordPush(All, s.coord, Done);
    case _ =>
  }

  lemma StepDue(s: Pipe, a: Action)
    requires Enabled(s, a)
    ensures StepsDown(s, a)
  {
    hide StepsDown, Enabled;
    if a.EncReceive? || a.EncSend? { EncoderDue(s, a); }
    else if a.MetReceive? || a.Score? || a.Return? || a.Finish? || a.Give? { MetricDue(s, a); }
    else { CoordinatorDue(s, a); }
  }

  // ---- how often a chunk is scored

  ghost predicate Scores(s: Pipe, a: Action, c: nat) { a.Score? && a.w < |s.metrics| && s.metrics[a.w] == Scoring(c) }

  /** How often chunk `c` is scored in the first `i` steps. */
  ghost function ScoresOf(states: seq<Pipe>, actions: seq<Action>, i: nat, c: nat): nat
    requires i <= |actions| && |states| == |actions| + 1
  {
    if i == 0 then 0 else ScoresOf(states, actions, i - 1, c) + if Scores(states[i - 1], actions[i - 1], c) then 1
        else 0
  }

  /** Over the first `n` chunks. */
  ghost function ScoresUpTo(states: seq<Pipe>, actions: seq<Action>, i: nat, n: nat): nat
    requires i <= |actions| && |states| == |actions| + 1
  {
    if n == 0 then 0 else ScoresUpTo(states, actions, i, n - 1) + ScoresOf(states, actions, i, n - 1)
  }

  lemma {:induction false} NothingScored(states: seq<Pipe>, actions: seq<Action>, n: nat)
    requires |states| == |actions| + 1
    ensures ScoresUpTo(states, actions, 0, n) == 0
  {
    if n > 0 { NothingScored(states, actions, n - 1); }
  }

  /** A step scores one chunk or none. */
  lemma {:induction false} ScoredOnce(states: seq<Pipe>, actions: seq<Action>, i: nat, n: nat)
    requires i < |actions| && |states| == |actions| + 1
    ensures var a, s := actions[i], states[i];
            var now, was := ScoresUpTo(states, actions, i + 1, n), ScoresUpTo(states, actions, i, n);
            now == was + if exists c: nat :: c < n && Scores(s, a, c) then 1 else 0
  {
    if n > 0 { ScoredOnce(states, actions, i, n - 1); }
  }

  lemma {:induction false} ScoresBelow(states: seq<Pipe>, actions: seq<Action>, i: nat, n: nat, most: nat)
    requires i <= |actions| && |states| == |actions| + 1 && forall c: nat :: c < n ==>
             ScoresOf(states, actions, i, c) <= most
    ensures ScoresUpTo(states, actions, i, n) <= n * most
  {
    if n > 0 {
      ScoresBelow(states, actions, i, n - 1, most);
      assert n * most == (n - 1) * most + most;
    }
  }

  /** The total of chunks does not change, and only chunks below it are scored. */
  lemma {:induction false} TotalStays(states: seq<Pipe>, actions: seq<Action>, i: nat)
    requires Run(states, actions) && i < |states|
    ensures states[i].tot == states[0].tot && states[i].decoded <= states[i].tot
  {
    hide Enabled, Do;
    if i > 0 {
      TotalStays(states, actions, i - 1);
      assert Follows(states[i - 1], actions[i - 1], states[i - 1 + 1]);
      CompletedGrows(states[i - 1], actions[i - 1]);
    } else {
      InitInv(states[0]);
    }
  }

  lemma ScoringBelow(states: seq<Pipe>, actions: seq<Action>, i: nat, c: nat)
    requires Run(states, actions) && i < |actions| && Scores(states[i], actions[i], c)
    ensures c < states[0].tot
  {
    hide InFlight;
    TotalStays(states, actions, i);
    OnePlace(states, actions, i, c);
    ScoringIn(states[i], actions[i].w);
  }

  lemma ScoringIn(s: Pipe, w: nat)
    requires w < |s.metrics| && s.metrics[w].Scoring?
    ensures InFlight(Only(s.metrics[w].c), s) >= 1
  {
    hide CoordCount, HandsCount, MetricsCount, QueueCount;
    MetricsHave(s.metrics, w);
  }

  /** A run is no longer than what its decodings and scorings bring. */
  lemma {:induction false} RunCost(states: seq<Pipe>, actions: seq<Action>, i: nat)
    requires Run(states, actions) && i <= |actions|
    ensures i + Due(states[i]) <= 1 + 10 * (states[i].decoded + ScoresUpTo(states, actions, i, states[0].tot))
  {
    hide Due, Enabled, Do;
    if i == 0 {
      FirstDue(states[0]);
      NothingScored(states, actions, states[0].tot);
    } else {
      var s, a := states[i - 1], actions[i - 1];
      RunCost(states, actions, i - 1);
      assert Follows(s, a, states[i - 1 + 1]);
      StepDue(s, a);
      ScoredOnce(states, actions, i - 1, states[0].tot);
      CompletedGrows(s, a);
      if a.Score? { ScoreCounts(states, actions, i - 1); }
    }
  }

  lemma ScoreCounts(states: seq<Pipe>, actions: seq<Action>, i: nat)
    requires Run(states, actions) && i < |actions| && actions[i].Score?
    ensures exists c: nat :: c < states[0].tot && Scores(states[i], actions[i], c)
  {
    assert Follows(states[i], actions[i], states[i + 1]);
    var c := states[i].metrics[actions[i].w].c;
    ScoringBelow(states, actions, i, c);
  }

  lemma FirstDue(s: Pipe)
    requires Init(s)
    ensures Due(s) == 1
  {
    NoneHeld(All, s.encoders);
    NoWeight(s.metrics);
  }

  lemma {:induction false} NoWeight(ms: seq<Metric>)
    requires forall w :: 0 <= w < |ms| ==> ms[w] == Idle
    ensures MetricsWeight(ms) == 0
  {
    if |ms| > 0 { NoWeight(ms[..|ms| - 1]); }
  }

  lemma RunShape(states: seq<Pipe>, actions: seq<Action>)
    requires Run(states, actions)
    ensures |states| == |actions| + 1
  {}

  function Longest(tot: nat, most: nat): nat { 1 + 10 * (tot + tot * most) }

  /** If no chunk is scored more than `most` times, no run is longer than a fixed number of steps. */
  lemma RunBounded(states: seq<Pipe>, actions: seq<Action>, most: nat)
    requires Run(states, actions)
    requires forall c: nat :: c < states[0].tot ==> ScoresOf(states, actions, |actions|, c) <= most
    ensures |actions| <= Longest(states[0].tot, most)
  {
    hide Due, Run, ScoresOf;
    RunShape(states, actions);
    RunCost(states, actions, |actions|);
    TotalStays(states, actions, |actions|);
    ScoresBelow(states, actions, |actions|, states[0].tot, most);
  }

  // ---- the search decides

  /** What a chunk's search is about. */
  datatype Task = Task(ctx: Search.Ctx, guide: Search.Guide, score: int -> real)

  ghost predicate TasksOk(tasks: seq<Task>, tot: nat, most: nat)
  {
    |tasks| == tot && forall c :: 0 <= c < tot ==>
        Search.CtxOk(tasks[c].ctx) && 1 + tasks[c].ctx.qpMax - tasks[c].ctx.qpMin <= most
  }

  /** The rounds of a chunk's search: its probes. */
  function Rounds(t: Task): nat
    requires Search.CtxOk(t.ctx)
  {
    |Search.Searched(t.ctx, t.guide, t.score).probes|
  }

  lemma RoundsBounded(t: Task)
    requires Search.CtxOk(t.ctx)
    ensures 1 <= Rounds(t) <= 1 + t.ctx.qpMax - t.ctx.qpMin
  {
    Outcome.SearchProbes(t.ctx, t.guide, t.score);
    Outcome.ProbesDistinct(t.ctx, t.guide, t.score);
  }

  /** Step `i`, if it scores a chunk, completes it exactly in the last round of the chunk's search. */
  ghost predicate JudgedAt(states: seq<Pipe>, actions: seq<Action>, tasks: seq<Task>, i: nat)
    requires i < |actions| && |states| == |actions| + 1
  {
    forall c :: 0 <= c < |tasks| && Search.CtxOk(tasks[c].ctx) && Scores(states[i], actions[i], c) ==>
      (actions[i].complete <==> ScoresOf(states, actions, i, c) + 1 == Rounds(tasks[c]))
  }

  ghost predicate Judged(states: seq<Pipe>, actions: seq<Action>, tasks: seq<Task>)
  {
    |states| == |actions| + 1 && forall i :: 0 <= i < |actions| ==> JudgedAt(states, actions, tasks, i)
  }

  /** The search of chunk `c` is over. */
  ghost predicate Over(s: Pipe, c: nat) { c in s.final || Reported(s, c) || c in s.finished }

  /** A search once over stays so, and a scoring that completes ends it. */
  lemma OverStays(s: Pipe, a: Action, c: nat)
    requires Enabled(s, a)
    ensures Over(s, c) ==> Over(Do(s, a), c)
    ensures Scores(s, a, c) && a.complete ==> Over(Do(s, a), c)
  {
    var t := Do(s, a);
    if Reported(s, c) {
      var v :| 0 <= v < |s.metrics| && s.metrics[v] == Finishing(c);
      assert t.metrics[v] == Finishing(c) || (a.Finish? && v == a.w);
    }
    if Scores(s, a, c) && a.complete && !s.alt { assert t.metrics[a.w] == Finishing(c); }
  }

  /** No chunk is scored after its search is over. */
  lemma NotOver(s: Pipe, a: Action, c: nat)
    requires Inv(s) && Scores(s, a, c)
    ensures !Over(s, c)
  {
    hide Once, Totals, Passes;
    ScoringAlone(s, a.w);
  }

  lemma {:induction false} ScoredInRounds(states: seq<Pipe>, actions: seq<Action>, tasks: seq<Task>, i: nat, c: nat)
    requires Run(states, actions) && Judged(states, actions, tasks) && i <= |actions| && c < |tasks|
             && Search.CtxOk(tasks[c].ctx)
    ensures ScoresOf(states, actions, i, c) <= Rounds(tasks[c])
    ensures ScoresOf(states, actions, i, c) == Rounds(tasks[c]) ==> Over(states[i], c)
  {
    hide Inv, Enabled, Do, Over, Scores, Rounds;
    RoundsBounded(tasks[c]);
    if i > 0 {
      var s, a := states[i - 1], actions[i - 1];
      ScoredInRounds(states, actions, tasks, i - 1, c);
      RunInv(states, actions, i - 1);
      assert Follows(s, a, states[i - 1 + 1]);
      assert JudgedAt(states, actions, tasks, i - 1);
      OverStays(s, a, c);
      if Scores(s, a, c) { NotOver(s, a, c); }
    }
  }

  /** Judged by the searches of its chunks, every run is bounded, whatever the guides and scores. */
  lemma JudgedBounded(states: seq<Pipe>, actions: seq<Action>, tasks: seq<Task>, most: nat)
    requires Run(states, actions) && Judged(states, actions, tasks) && TasksOk(tasks, states[0].tot, most)
    ensures |actions| <= Longest(states[0].tot, most)
  {
    hide Run, Judged, Rounds, Longest;
    RunShape(states, actions);
    forall c: nat | c < states[0].tot ensures ScoresOf(states, actions, |actions|, c) <= most {
      ScoredInRounds(states, actions, tasks, |actions|, c);
      RoundsBounded(tasks[c]);
    }
    RunBounded(states, actions, most);
  }

  // ---- it goes on until it is closed

  /** The step as the searches would have it. */
  ghost function Ruled(states: seq<Pipe>, actions: seq<Action>, tasks: seq<Task>, a: Action): Action
    requires |states| == |actions| + 1
  {
    match a
    case Score(w, _) =>
      var s := states[|actions|];
      var c := if w < |s.metrics| && s.metrics[w].Scoring? then s.metrics[w].c else 0;
      Score(w, c < |tasks| && Search.CtxOk(tasks[c].ctx)
            && ScoresOf(states, actions, |actions|, c) + 1 == Rounds(tasks[c]))
    case _ => a
  }

  lemma {:induction false} ScoresSame(states: seq<Pipe>, actions: seq<Action>, t: Pipe, a: Action, i: nat, c: nat)
    requires |states| == |actions| + 1 && i <= |actions|
    ensures ScoresOf(states + [t], actions + [a], i, c) == ScoresOf(states, actions, i, c)
  {
    hide Scores;
    if i > 0 { ScoresSame(states, actions, t, a, i - 1, c); }
  }

  /** A run goes on with any step enabled. */
  lemma GoesOn(states: seq<Pipe>, actions: seq<Action>, tasks: seq<Task>, a: Action)
    requires Run(states, actions) && Judged(states, actions, tasks) && Enabled(states[|actions|], a)
    ensures var r := Ruled(states, actions, tasks, a);
            && Enabled(states[|actions|], r)
            && Run(states + [Do(states[|actions|], r)], actions + [r])
            && Judged(states + [Do(states[|actions|], r)], actions + [r], tasks)
  {
    hide Do, ScoresOf, Rounds;
    var n := |actions|;
    var r := Ruled(states, actions, tasks, a);
    assert Enabled(states[n], r);
    var states2, actions2 := states + [Do(states[n], r)], actions + [r];
    forall i | 0 <= i < n + 1 ensures Follows(states2[i], actions2[i], states2[i + 1]) {
      if i < n { assert Follows(states[i], actions[i], states[i + 1]); }
    }
    forall i | 0 <= i < n + 1 ensures JudgedAt(states2, actions2, tasks, i) {
      forall c: nat ensures ScoresOf(states2, actions2, i, c) == ScoresOf(states, actions, i, c) {
        ScoresSame(states, actions, states2[n + 1], r, i, c);
      }
      if i < n { assert JudgedAt(states, actions, tasks, i); }
    }
  }

  /**
   * Every run judged by the searches of its chunks can be completed, and only by closing the ring: with
   * buffers and workers there, the pipeline neither stops short nor goes on for ever.
   */
  lemma {:induction false} RunCloses(states: seq<Pipe>, actions: seq<Action>, tasks: seq<Task>, most: nat)
    returns (states2: seq<Pipe>, actions2: seq<Action>)
    requires Run(states, actions) && Judged(states, actions, tasks) && TasksOk(tasks, states[0].tot, most)
    requires 1 <= states[0].bufs <= CAPACITY && |states[0].encoders| >= 1 && |states[0].metrics| >= 1
    ensures states <= states2 && actions <= actions2
    ensures Run(states2, actions2) && Judged(states2, actions2, tasks) && states2[|actions2|].closed
    ensures |states2[|actions2|].finished| == states[0].tot
    decreases Longest(states[0].tot, most) - |actions|
  {
    hide Run, Judged, Enabled, Do, Longest;
    var n := |actions|;
    RunShape(states, actions);
    JudgedBounded(states, actions, tasks, most);
    MachineStays(states, actions, n);
    if states[n].closed {
      states2, actions2 := states, actions;
      ClosedMeansIdle(states, actions, n);
    } else {
      var a := NoDeadlock(states, actions, n);
      GoesOn(states, actions, tasks, a);
      var r := Ruled(states, actions, tasks, a);
      JudgedBounded(states + [Do(states[n], r)], actions + [r], tasks, most);
      states2, actions2 := RunCloses(states + [Do(states[n], r)], actions + [r], tasks, most);
    }
  }

  /** Buffers, workers and chunks are those of the start. */
  lemma {:induction false} MachineStays(states: seq<Pipe>, actions: seq<Action>, i: nat)
    requires Run(states, actions) && i < |states|
    ensures states[i].bufs == states[0].bufs && states[i].tot == states[0].tot
    ensures |states[i].encoders| == |states[0].encoders| && |states[i].metrics| == |states[0].metrics|
  {
    if i > 0 {
      MachineStays(states, actions, i - 1);
      assert Follows(states[i - 1], actions[i - 1], states[i - 1 + 1]);
    }
  }
}
