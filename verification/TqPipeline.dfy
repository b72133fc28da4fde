/**
 * The target-quality pipeline: a decoder, a coordinator, encoders and metric workers around three
 * rings. Packages go round from the coordinator through an encoder and a metric worker until their
 * chunk is done.
 */
module TqPipeline {

  const CAPACITY: nat := 128

  /** On the coordinator's ring: a chunk's package, or the note that a chunk is done. */
  datatype Message = Package(c: nat) | Done

  datatype Hand = Empty | Holds(c: nat)

  /**
   * A metric worker: idle, scoring, about to send the package back, about to report the chunk done,
   * about to give the buffer back.
   */
  datatype Metric = Idle | Scoring(c: nat) | Returning(c: nat) | Finishing(c: nat) | Giving(c: nat)

  /** `final` are the chunks whose search is over, `passed` those encoded again after it. */
  datatype Pipe = Pipe(
    tot: nat, bufs: nat, alt: bool,
    decoded: nat, decoder: Hand, sem: nat,
    coord: seq<Message>, coordinator: Hand, completed: nat, closed: bool,
    enc: seq<nat>, encoders: seq<Hand>,
    met: seq<nat>, metrics: seq<Metric>,
    final: set<nat>, passed: set<nat>, finished: set<nat>)

  ghost predicate Init(s: Pipe)
  {
    && s.decoded == 0 && s.decoder == Empty && s.sem == s.bufs && s.coord == [] && s.coordinator == Empty
       && s.completed == 0
    && !s.closed && s.enc == [] && s.met == [] && s.final == {} && s.passed == {} && s.finished == {}
    && (forall w :: 0 <= w < |s.encoders| ==> s.encoders[w] == Empty)
       && (forall w :: 0 <= w < |s.metrics| ==> s.metrics[w] == Idle)
  }

  datatype Action =
    | Decode | DecodeSend | Receive | Send | Close
    | EncReceive(w: nat) | EncSend(w: nat)
    | MetReceive(w: nat) | Score(w: nat, complete: bool) | Return(w: nat) | Finish(w: nat) | Give(w: nat)

  ghost predicate Enabled(s: Pipe, a: Action)
  {
    match a
    case Decode => s.decoder == Empty && s.decoded < s.tot && s.sem > 0
    case DecodeSend => s.decoder.Holds? && |s.coord| < CAPACITY
    case Receive => s.coordinator == Empty && s.completed < s.tot && s.coord != []
    case Send => s.coordinator.Holds? && |s.enc| < CAPACITY
    case Close => s.coordinator == Empty && s.completed >= s.tot && !s.closed
    case EncReceive(w) => w < |s.encoders| && s.encoders[w] == Empty && s.enc != []
    case EncSend(w) => w < |s.encoders| && s.encoders[w].Holds? && |s.met| < CAPACITY
    case MetReceive(w) => w < |s.metrics| && s.metrics[w] == Idle && s.met != []
    case Score(w, _) => w < |s.metrics| && s.metrics[w].Scoring?
    case Return(w) => w < |s.metrics| && s.metrics[w].Returning? && |s.coord| < CAPACITY
    case Finish(w) => w < |s.metrics| && s.metrics[w].Finishing? && |s.coord| < CAPACITY
    case Give(w) => w < |s.metrics| && s.metrics[w].Giving?
  }

  ghost function Do(s: Pipe, a: Action): Pipe
    requires Enabled(s, a)
  {
    match a
    case Decode => s.(sem := s.sem - 1, decoder := Holds(s.decoded), decoded := s.decoded + 1)
    case DecodeSend => s.(coord := s.coord + [Package(s.decoder.c)], decoder := Empty)
    case Receive =>
      (match s.coord[0]
       case Done => s.(coord := s.coord[1..], completed := s.completed + 1)
       case Package(c) => s.(coord := s.coord[1..], coordinator := Holds(c)))
    case Send => s.(enc := s.enc + [s.coordinator.c], coordinator := Empty)
    case Close => s.(closed := true)
    case EncReceive(w) => s.(encoders := s.encoders[w := Holds(s.enc[0])], enc := s.enc[1..])
    case EncSend(w) =>
      var c := s.encoders[w].c;
      s.(met := s.met + [c], encoders := s.encoders[w := Empty], passed := if c in s.final then s.passed + {c}
         else s.passed)
    case MetReceive(w) =>
      var c := s.met[0];
      s.(met := s.met[1..], metrics := s.metrics[w := if c in s.final then Finishing(c) else Scoring(c)])
    case Score(w, complete) =>
      var c := s.metrics[w].c;
      if !complete then s.(metrics := s.metrics[w := Returning(c)])
      else if s.alt then s.(final := s.final + {c}, metrics := s.metrics[w := Returning(c)])
      else s.(metrics := s.metrics[w := Finishing(c)])
    case Return(w) => s.(coord := s.coord + [Package(s.metrics[w].c)], metrics := s.metrics[w := Idle])
    case Finish(w) =>
      var c := s.metrics[w].c;
      s.(coord := s.coord + [Done], finished := s.finished + {c}, metrics := s.metrics[w := Giving(c)])
    case Give(w) => s.(sem := s.sem + 1, metrics := s.metrics[w := Idle])
  }

  // ---- where the packages are

  datatype Select = All | Only(c: nat)

  /** One for a package counted. */
  function Tick(sel: Select, c: nat): nat { if sel.All? || sel.c == c then 1 else 0 }

  function HandCount(sel: Select, h: Hand): nat { if h.Holds? then Tick(sel, h.c) else 0 }

  function MetricCount(sel: Select, m: Metric): nat { if m.Idle? || m.Giving? then 0 else Tick(sel, m.c) }

  function MessageCount(sel: Select, m: Message): nat { if m.Package? then Tick(sel, m.c) else 0 }

  function QueueCount(sel: Select, q: seq<nat>): nat
  {
    if |q| == 0 then 0 else QueueCount(sel, q[..|q| - 1]) + Tick(sel, q[|q| - 1])
  }

  function CoordCount(sel: Select, q: seq<Message>): nat
  {
    if |q| == 0 then 0 else CoordCount(sel, q[..|q| - 1]) + MessageCount(sel, q[|q| - 1])
  }

  function HandsCount(sel: Select, hs: seq<Hand>): nat
  {
    if |hs| == 0 then 0 else HandsCount(sel, hs[..|hs| - 1]) + HandCount(sel, hs[|hs| - 1])
  }

  function MetricsCount(sel: Select, ms: seq<Metric>): nat
  {
    if |ms| == 0 then 0 else MetricsCount(sel, ms[..|ms| - 1]) + MetricCount(sel, ms[|ms| - 1])
  }

  /** The places that hold a package between its decoding and the report that its chunk is done. */
  function InFlight(sel: Select, s: Pipe): nat
  {
    HandCount(sel, s.decoder) + CoordCount(sel, s.coord) + HandCount(sel, s.coordinator) + QueueCount(sel, s.enc)
    + HandsCount(sel, s.encoders) + QueueCount(sel, s.met) + MetricsCount(sel, s.metrics)
  }

  /** Reports not yet counted. */
  function Reports(q: seq<Message>): nat
  {
    if |q| == 0 then 0 else Reports(q[..|q| - 1]) + if q[|q| - 1] == Done then 1 else 0
  }

  /** Buffers whose chunk is done but which are not back yet. */
  function Givings(ms: seq<Metric>): nat
  {
    if |ms| == 0 then 0 else Givings(ms[..|ms| - 1]) + if ms[|ms| - 1].Giving? then 1 else 0
  }

  /** Chunk `c` is in as many places, or done, as it has been decoded: once or not at all. */
  ghost predicate Once(s: Pipe, c: nat)
  {
    InFlight(Only(c), s) + (if c in s.finished then 1 else 0) == if c < s.decoded then 1 else 0
  }

  /** Some metric worker is about to report the chunk done. */
  ghost predicate Reported(s: Pipe, c: nat) { exists w :: 0 <= w < |s.metrics| && s.metrics[w] == Finishing(c) }

  /**
   * With another pass for the final parameters, a chunk is done only after it: whatever waits for a
   * metric worker after its search is over has been encoded again, and only that is about to be done.
   */
  ghost predicate Finals(s: Pipe)
  {
    && (s.alt ==> s.finished <= s.passed && forall c: nat :: Reported(s, c) ==> c in s.passed)
    && (!s.alt ==> s.final == {})
    && (forall c :: c in s.final && c in s.met ==> c in s.passed)
    && (forall w :: 0 <= w < |s.metrics| && s.metrics[w].Scoring? ==> s.metrics[w].c !in s.final)
  }

  /** What has been encoded again waits for a metric worker, is about to be done, or is done. */
  ghost predicate Passes(s: Pipe)
  {
    s.passed <= s.final && forall c :: c in s.passed ==> c in s.met || Reported(s, c) || c in s.finished
  }

  /** Packages, reports and buffers add up; the ring to the encoders is closed only after all reports. */
  ghost predicate Totals(s: Pipe)
  {
    && InFlight(All, s) + |s.finished| == s.decoded <= s.tot
    && |s.finished| == s.completed + Reports(s.coord)
    && s.sem + InFlight(All, s) + Givings(s.metrics) == s.bufs
    && (s.closed ==> s.completed >= s.tot)
  }

  /** Every chunk decoded so far is in exactly one place, or done. */
  ghost predicate Inv(s: Pipe)
  {
    (forall c: nat :: Once(s, c)) && Totals(s) && Finals(s) && Passes(s)
  }

  // ---- counts of lists

  lemma {:induction false} CoordPop(sel: Select, q: seq<Message>)
    requires |q| > 0
    ensures CoordCount(sel, q) == MessageCount(sel, q[0]) + CoordCount(sel, q[1..])
    ensures Reports(q) == Reports(q[1..]) + if q[0] == Done then 1 else 0
  {
    var n := |q| - 1;
    if n > 0 {
      assert q[..n][1..] == q[1..][..n - 1];
      CoordPop(sel, q[..n]);
    } else {
      assert q[1..] == [] && q[..0] == [];
    }
  }

  lemma CoordPush(sel: Select, q: seq<Message>, m: Message)
    ensures CoordCount(sel, q + [m]) == CoordCount(sel, q) + MessageCount(sel, m)
    ensures Reports(q + [m]) == Reports(q) + if m == Done then 1 else 0
  {
    assert (q + [m])[..|q|] == q;
  }

  lemma {:induction false} QueuePop(sel: Select, q: seq<nat>)
    requires |q| > 0
    ensures QueueCount(sel, q) == Tick(sel, q[0]) + QueueCount(sel, q[1..])
  {
    var n := |q| - 1;
    if n > 0 {
      assert q[..n][1..] == q[1..][..n - 1];
      QueuePop(sel, q[..n]);
    } else {
      assert q[1..] == [] && q[..0] == [];
    }
  }

  lemma QueuePush(sel: Select, q: seq<nat>, c: nat)
    ensures QueueCount(sel, q + [c]) == QueueCount(sel, q) + Tick(sel, c)
  {
    assert (q + [c])[..|q|] == q;
  }

  lemma {:induction false} HandsSet(sel: Select, hs: seq<Hand>, w: nat, h: Hand)
    requires w < |hs|
    ensures HandsCount(sel, hs[w := h]) + HandCount(sel, hs[w]) == HandsCount(sel, hs) + HandCount(sel, h)
  {
    var n := |hs| - 1;
    if w < n {
      assert hs[w := h][..n] == hs[..n][w := h];
      HandsSet(sel, hs[..n], w, h);
    } else {
      assert hs[w := h][..n] == hs[..n];
    }
  }

  lemma {:induction false} MetricsSet(sel: Select, ms: seq<Metric>, w: nat, m: Metric)
    requires w < |ms|
    ensures MetricsCount(sel, ms[w := m]) + MetricCount(sel, ms[w]) == MetricsCount(sel, ms) + MetricCount(sel, m)
  {
    var n := |ms| - 1;
    if w < n {
      assert ms[w := m][..n] == ms[..n][w := m];
      MetricsSet(sel, ms[..n], w, m);
    } else {
      assert ms[w := m][..n] == ms[..n];
    }
  }

  lemma {:induction false} GivingsSet(ms: seq<Metric>, w: nat, m: Metric)
    requires w < |ms|
    ensures Givings(ms[w := m]) + (if ms[w].Giving? then 1 else 0) == Givings(ms) + if m.Giving? then 1 else 0
  {
    var n := |ms| - 1;
    if w < n {
      assert ms[w := m][..n] == ms[..n][w := m];
      GivingsSet(ms[..n], w, m);
    } else {
      assert ms[w := m][..n] == ms[..n];
    }
  }

  // ---- steps

  /** What a step adds to the packages in flight, and what it takes out. */
  ghost predicate Balanced(sel: Select, s: Pipe, a: Action)
    requires Enabled(s, a)
  {
    InFlight(sel, Do(s, a)) + (if a.Finish? then Tick(sel, s.metrics[a.w].c) else 0)
    == InFlight(sel, s) + if a.Decode? then Tick(sel, s.decoded) else 0
  }

  lemma CoordinatorBalance(sel: Select, s: Pipe, a: Action)
    requires Enabled(s, a) && (a.Decode? || a.DecodeSend? || a.Receive? || a.Send? || a.Close?)
    ensures Balanced(sel, s, a)
  {
    hide CoordCount, HandsCount, MetricsCount, QueueCount, Tick;
    match a
    case DecodeSend => CoordPush(sel, s.coord, Package(s.decoder.c));
    case Receive => CoordPop(sel, s.coord);
    case Send => QueuePush(sel, s.enc, s.coordinator.c);
    case _ =>
  }

  lemma EncoderBalance(sel: Select, s: Pipe, a: Action)
    requires Enabled(s, a) && (a.EncReceive? || a.EncSend?)
    ensures Balanced(sel, s, a)
  {
    hide CoordCount, HandsCount, MetricsCount, QueueCount, Tick;
    match a
    case EncReceive(w) =>
      QueuePop(sel, s.enc);
      HandsSet(sel, s.encoders, w, Holds(s.enc[0]));
    case EncSend(w) =>
      QueuePush(sel, s.met, s.encoders[w].c);
      HandsSet(sel, s.encoders, w, Empty);
  }

  lemma MetricBalance(sel: Select, s: Pipe, a: Action)
    requires Enabled(s, a) && (a.MetReceive? || a.Score? || a.Return? || a.Finish? || a.Give?)
    ensures Balanced(sel, s, a)
  {
    hide CoordCount, HandsCount, MetricsCount, QueueCount, Tick;
    match a
    case MetReceive(w) =>
      QueuePop(sel, s.met);
      MetricsSet(sel, s.metrics, w, Do(s, a).metrics[w]);
    case Score(w, _) => MetricsSet(sel, s.metrics, w, Do(s, a).metrics[w]);
    case Return(w) =>
      CoordPush(sel, s.coord, Package(s.metrics[w].c));
      MetricsSet(sel, s.metrics, w, Idle);
    case Finish(w) =>
      CoordPush(sel, s.coord, Done);
      MetricsSet(sel, s.metrics, w, Giving(s.metrics[w].c));
    case Give(w) => MetricsSet(sel, s.metrics, w, Idle);
  }

  /**
   * Packages enter flight by being decoded and leave it by their chunk being reported done; nothing
   * else changes their number.
   */
  lemma Balance(sel: Select, s: Pipe, a: Action)
    requires Enabled(s, a)
    ensures Balanced(sel, s, a)
  {
    hide Balanced, Enabled;
    if a.EncReceive? || a.EncSend? { EncoderBalance(sel, s, a); }
    else if a.MetReceive? || a.Score? || a.Return? || a.Finish? || a.Give? { MetricBalance(sel, s, a); }
    else { CoordinatorBalance(sel, s, a); }
  }

  /** Reports and buffers balance too. */
  lemma BuffersBalance(s: Pipe, a: Action)
    requires Enabled(s, a)
    ensures var t := Do(s, a);
            && t.completed + Reports(t.coord) == s.completed + Reports(s.coord) + (if a.Finish? then 1 else 0)
            && t.sem + Givings(t.metrics) + (if a.Decode? then 1 else 0)
               == s.sem + Givings(s.metrics) + if a.Finish? then 1 else 0
  {
    hide Reports, Givings, CoordCount;
    match a
    case DecodeSend => CoordPush(All, s.coord, Package(s.decoder.c));
    case Receive => CoordPop(All, s.coord);
    case MetReceive(w) => GivingsSet(s.metrics, w, Do(s, a).metrics[w]);
    case Score(w, _) => GivingsSet(s.metrics, w, Do(s, a).metrics[w]);
    case Return(w) =>
      CoordPush(All, s.coord, Package(s.metrics[w].c));
      GivingsSet(s.metrics, w, Idle);
    case Finish(w) =>
      CoordPush(All, s.coord, Done);
      GivingsSet(s.metrics, w, Giving(s.metrics[w].c));
    case Give(w) => GivingsSet(s.metrics, w, Idle);
    case _ =>
  }

  lemma OnceKept(s: Pipe, a: Action, c: nat)
    requires Inv(s) && Enabled(s, a)
    ensures Once(Do(s, a), c)
  {
    hide InFlight, Reports, Givings, Finals;
    Balance(Only(c), s, a);
    assert Once(s, c);
    if a.Finish? { NotDoneYet(s, a.w); }
  }

  lemma {:induction false} MetricsHave(ms: seq<Metric>, w: nat)
    requires w < |ms| && !ms[w].Idle? && !ms[w].Giving?
    ensures MetricsCount(Only(ms[w].c), ms) >= 1
  {
    if w < |ms| - 1 { MetricsHave(ms[..|ms| - 1], w); }
  }

  /** A chunk about to be reported done has not been. */
  lemma NotDoneYet(s: Pipe, w: nat)
    requires (forall c: nat :: Once(s, c)) && w < |s.metrics| && s.metrics[w].Finishing?
    ensures s.metrics[w].c !in s.finished && s.metrics[w].c < s.decoded
  {
    hide CoordCount, HandsCount, MetricsCount, QueueCount;
    MetricsHave(s.metrics, w);
    assert Once(s, s.metrics[w].c);
  }

  /** A chunk being scored is nowhere else, and not done. */
  lemma ScoringAlone(s: Pipe, w: nat)
    requires (forall c: nat :: Once(s, c)) && w < |s.metrics| && s.metrics[w].Scoring?
    ensures var c := s.metrics[w].c;
            && c !in s.met && c !in s.finished
            && forall v :: 0 <= v < |s.metrics| && v != w ==> MetricCount(Only(c), s.metrics[v]) == 0
  {
    hide CoordCount, HandsCount, MetricsCount, QueueCount;
    var c := s.metrics[w].c;
    assert Once(s, c);
    MetricsHave(s.metrics, w);
    if c in s.met { QueueHas(s.met, c); }
    forall v | 0 <= v < |s.metrics| && v != w && MetricCount(Only(c), s.metrics[v]) == 1 ensures false {
      TwoMetrics(s.metrics, c, if v < w then v else w, if v < w then w else v);
    }
  }

  lemma {:induction false} QueueHas(q: seq<nat>, c: nat)
    requires c in q
    ensures QueueCount(Only(c), q) >= 1
  {
    var n := |q| - 1;
    if q[n] != c { QueueHas(q[..n], c); }
  }

  lemma {:induction false} TwoMetrics(ms: seq<Metric>, c: nat, v: nat, w: nat)
    requires v < w < |ms| && MetricCount(Only(c), ms[v]) == 1 && MetricCount(Only(c), ms[w]) == 1
    ensures MetricsCount(Only(c), ms) >= 2
  {
    var n := |ms| - 1;
    if w < n { TwoMetrics(ms[..n], c, v, w); } else { MetricsHave(ms[..n], v); }
  }

  lemma FinalsKept(s: Pipe, a: Action)
    requires Inv(s) && Enabled(s, a)
    ensures Finals(Do(s, a))
  {
    hide Once, Totals, Passes;
    if a.Score? { ScoringAlone(s, a.w); }
  }

  lemma PassesKept(s: Pipe, a: Action)
    requires Inv(s) && Enabled(s, a)
    ensures Passes(Do(s, a))
  {
    hide Once, Totals, InFlight;
    var t := Do(s, a);
    forall c | c in t.passed ensures c in t.met || Reported(t, c) || c in t.finished {
      if Reported(s, c) {
        var v :| 0 <= v < |s.metrics| && s.metrics[v] == Finishing(c);
        assert t.metrics[v] == Finishing(c) || (a.Finish? && v == a.w);
      }
      if a.MetReceive? && c == s.met[0] { assert t.metrics[a.w] == Finishing(c); }
      if a.EncSend? && c == s.encoders[a.w].c { assert t.met[|s.met|] == c; }
    }
  }

  lemma TotalsKept(s: Pipe, a: Action)
    requires Totals(s) && Enabled(s, a) && Balanced(All, s, a)
    requires a.Finish? ==> s.metrics[a.w].c !in s.finished
    ensures Totals(Do(s, a))
  {
    hide InFlight, Reports, Givings;
    BuffersBalance(s, a);
    CompletedGrows(s, a);
    FinishedGrows(s, a);
  }

  lemma CompletedGrows(s: Pipe, a: Action)
    requires Enabled(s, a)
    ensures var t := Do(s, a);
            && t.completed >= s.completed && t.tot == s.tot && t.bufs == s.bufs
            && (t.closed ==> s.closed || s.completed >= s.tot) && (s.decoded <= s.tot ==> t.decoded <= t.tot)
            && t.decoded == s.decoded + if a.Decode? then 1 else 0
  {}

  lemma FinishedGrows(s: Pipe, a: Action)
    requires Enabled(s, a) && (a.Finish? ==> s.metrics[a.w].c !in s.finished)
    ensures |Do(s, a).finished| == |s.finished| + if a.Finish? then 1 else 0
  {}

  lemma StepKeeps(s: Pipe, a: Action)
    requires Inv(s) && Enabled(s, a)
    ensures Inv(Do(s, a))
  {
    hide Totals, Balanced, Finals, Passes, Once, Do;
    Balance(All, s, a);
    if a.Finish? { NotDoneYet(s, a.w); }
    TotalsKept(s, a);
    FinalsKept(s, a);
    PassesKept(s, a);
    forall c: nat ensures Once(Do(s, a), c) { OnceKept(s, a, c); }
  }

  // ---- whole runs

  ghost predicate Follows(s: Pipe, a: Action, t: Pipe) { Enabled(s, a) && t == Do(s, a) }

  ghost predicate Run(states: seq<Pipe>, actions: seq<Action>)
  {
    && |states| == |actions| + 1 && Init(states[0])
    && forall i :: 0 <= i < |actions| ==> Follows(states[i], actions[i], states[i + 1])
  }

  lemma {:induction false} NoneHeld(sel: Select, hs: seq<Hand>)
    requires forall w :: 0 <= w < |hs| ==> hs[w] == Empty
    ensures HandsCount(sel, hs) == 0
  {
    if |hs| > 0 { NoneHeld(sel, hs[..|hs| - 1]); }
  }

  lemma {:induction false} NoneScored(sel: Select, ms: seq<Metric>)
    requires forall w :: 0 <= w < |ms| ==> ms[w] == Idle
    ensures MetricsCount(sel, ms) == 0 && Givings(ms) == 0
  {
    if |ms| > 0 { NoneScored(sel, ms[..|ms| - 1]); }
  }

  lemma InitInv(s: Pipe)
    requires Init(s)
    ensures Inv(s)
  {
    forall sel ensures InFlight(sel, s) == 0 {
      NoneHeld(sel, s.encoders);
      NoneScored(sel, s.metrics);
    }
    NoneScored(All, s.metrics);
  }

  lemma {:induction false} RunInv(states: seq<Pipe>, actions: seq<Action>, i: nat)
    requires Run(states, actions) && i < |states|
    ensures Inv(states[i])
  {
    hide Inv, Enabled, Do;
    if i == 0 {
      InitInv(states[0]);
    } else {
      RunInv(states, actions, i - 1);
      assert Follows(states[i - 1], actions[i - 1], states[i - 1 + 1]);
      StepKeeps(states[i - 1], actions[i - 1]);
    }
  }

  /**
   * In every state of every run a chunk's package is in at most one place, and in one exactly while
   * decoded and not done.
   */
  lemma OnePlace(states: seq<Pipe>, actions: seq<Action>, i: nat, c: nat)
    requires Run(states, actions) && i < |states|
    ensures var s := states[i]; InFlight(Only(c), s) == if c < s.decoded && c !in s.finished then 1 else 0
  {
    hide InFlight;
    RunInv(states, actions, i);
    assert Once(states[i], c);
  }

  /** An encoder sends on what it encoded of a chunk whose search is over. */
  ghost predicate FinalPass(s: Pipe, a: Action, c: nat)
  {
    a.EncSend? && a.w < |s.encoders| && s.encoders[a.w] == Holds(c) && c in s.final
  }

  lemma {:induction false} PassHappened(states: seq<Pipe>, actions: seq<Action>, i: nat, c: nat)
    requires Run(states, actions) && i < |states| && c in states[i].passed
    ensures exists j :: 0 <= j < i && FinalPass(states[j], actions[j], c)
  {
    if i > 0 {
      assert Follows(states[i - 1], actions[i - 1], states[i - 1 + 1]);
      if c in states[i - 1].passed {
        PassHappened(states, actions, i - 1, c);
      } else {
        assert FinalPass(states[i - 1], actions[i - 1], c);
      }
    }
  }

  /**
   * A chunk is reported done at most once, and with another pass for the final parameters only after
   * it has been encoded again.
   */
  lemma DoneOnce(states: seq<Pipe>, actions: seq<Action>, i: nat)
    requires Run(states, actions) && i < |actions| && actions[i].Finish?
    ensures var s, w := states[i], actions[i].w;
            && w < |s.metrics| && s.metrics[w].Finishing? && s.metrics[w].c !in s.finished
            && states[i + 1].finished == s.finished + {s.metrics[w].c}
            && (s.alt ==> exists j :: 0 <= j < i && FinalPass(states[j], actions[j], s.metrics[w].c))
  {
    hide InFlight, Reports, Givings, Once, Passes, FinalPass;
    RunInv(states, actions, i);
    assert Follows(states[i], actions[i], states[i + 1]);
    NotDoneYet(states[i], actions[i].w);
    var c := states[i].metrics[actions[i].w].c;
    assert Reported(states[i], c);
    if states[i].alt { PassHappened(states, actions, i, c); }
  }

  /** That pass is made once. */
  lemma PassedOnce(states: seq<Pipe>, actions: seq<Action>, i: nat, c: nat)
    requires Run(states, actions) && i < |actions| && FinalPass(states[i], actions[i], c)
    ensures c !in states[i].passed && c in states[i + 1].passed
  {
    hide CoordCount, HandsCount, MetricsCount, QueueCount, Totals, Finals;
    var s, w := states[i], actions[i].w;
    RunInv(states, actions, i);
    assert Follows(s, actions[i], states[i + 1]);
    assert Once(s, c);
    HandsHold(s.encoders, w);
    if c in s.met { QueueHas(s.met, c); }
    if Reported(s, c) {
      var v :| 0 <= v < |s.metrics| && s.metrics[v] == Finishing(c);
      MetricsHave(s.metrics, v);
    }
  }

  lemma {:induction false} HandsHold(hs: seq<Hand>, w: nat)
    requires w < |hs| && hs[w].Holds?
    ensures HandsCount(Only(hs[w].c), hs) >= 1
  {
    if w < |hs| - 1 { HandsHold(hs[..|hs| - 1], w); }
  }

  /** The ring to the encoders is closed only when every chunk is done and no package is anywhere. */
  lemma ClosedMeansIdle(states: seq<Pipe>, actions: seq<Action>, i: nat)
    requires Run(states, actions) && i < |states| && states[i].closed
    ensures var s := states[i];
            && |s.finished| == s.completed == s.tot && InFlight(All, s) == 0 && s.enc == [] && s.met == []
               && s.coordinator == Empty && s.decoder == Empty
  {
    hide CoordCount, HandsCount, MetricsCount, Givings, Once;
    RunInv(states, actions, i);
    QueueSize(states[i].enc);
    QueueSize(states[i].met);
  }

  lemma {:induction false} QueueSize(q: seq<nat>)
    ensures QueueCount(All, q) == |q|
  {
    if |q| > 0 { QueueSize(q[..|q| - 1]); }
  }

  /**
   * With no more buffers than ring slots, sending to the encoders never blocks the coordinator, nor
   * sending on the encoders.
   */
  lemma NeverBlocks(states: seq<Pipe>, actions: seq<Action>, i: nat)
    requires Run(states, actions) && i < |states| && states[i].bufs <= CAPACITY
    ensures var s := states[i];
            && (s.coordinator.Holds? ==> Enabled(s, Send))
            && forall w :: 0 <= w < |s.encoders| && s.encoders[w].Holds? ==> Enabled(s, EncSend(w))
  {
    hide CoordCount, MetricsCount, Givings, Once;
    var s := states[i];
    RunInv(states, actions, i);
    QueueSize(s.enc);
    QueueSize(s.met);
    forall w | 0 <= w < |s.encoders| && s.encoders[w].Holds? ensures |s.met| < CAPACITY { HandsHave(s.encoders, w); }
  }

  lemma {:induction false} HandsHave(hs: seq<Hand>, w: nat)
    requires w < |hs| && hs[w].Holds?
    ensures HandsCount(All, hs) >= 1
  {
    if w < |hs| - 1 { HandsHave(hs[..|hs| - 1], w); }
  }

  lemma {:induction false} HandsFind(hs: seq<Hand>) returns (w: nat)
    requires HandsCount(All, hs) >= 1
    ensures w < |hs| && hs[w].Holds?
  {
    var n := |hs| - 1;
    if hs[n].Holds? { w := n; } else { w := HandsFind(hs[..n]); }
  }

  lemma {:induction false} MetricsFind(ms: seq<Metric>) returns (w: nat)
    requires MetricsCount(All, ms) + Givings(ms) >= 1
    ensures w < |ms| && ms[w] != Idle
  {
    var n := |ms| - 1;
    if ms[n] != Idle { w := n; } else { w := MetricsFind(ms[..n]); }
  }

  /** With at least one buffer, encoder and metric worker, some step can always be taken until the ring is closed. */
  lemma NoDeadlock(states: seq<Pipe>, actions: seq<Action>, i: nat) returns (a: Action)
    requires Run(states, actions) && i < |states| && !states[i].closed
    requires 1 <= states[i].bufs <= CAPACITY && |states[i].encoders| >= 1 && |states[i].metrics| >= 1
    ensures Enabled(states[i], a)
  {
    hide HandsCount, MetricsCount, Givings, Once, Finals, QueueCount, CoordCount, InFlight;
    var s := states[i];
    RunInv(states, actions, i);
    NeverBlocks(states, actions, i);
    if s.coordinator.Holds? {
      a := Send;
    } else if s.completed >= s.tot {
      a := Close;
    } else if s.coord != [] {
      a := Receive;
    } else {
      a := QuietStep(s);
    }
  }

  /** With the coordinator waiting on an empty ring, and chunks left, another thread can step. */
  lemma QuietStep(s: Pipe) returns (a: Action)
    requires Inv(s) && s.coord == [] && s.coordinator == Empty && s.completed < s.tot
    requires 1 <= s.bufs && |s.encoders| >= 1 && |s.metrics| >= 1
    requires forall w :: 0 <= w < |s.encoders| && s.encoders[w].Holds? ==> Enabled(s, EncSend(w))
    ensures Enabled(s, a)
  {
    hide HandsCount, MetricsCount, Givings, Once, Finals, QueueCount, CoordCount;
    NothingWaiting();
    QueueSize(s.enc);
    QueueSize(s.met);
    if s.decoder.Holds? {
      a := DecodeSend;
    } else if HandsCount(All, s.encoders) >= 1 {
      var w := HandsFind(s.encoders);
      a := EncSend(w);
    } else if MetricsCount(All, s.metrics) + Givings(s.metrics) >= 1 {
      var w := MetricsFind(s.metrics);
      a := MetricStep(s, w);
    } else if s.enc != [] {
      FreeEncoder(s.encoders);
      a := EncReceive(0);
    } else if s.met != [] {
      FreeMetric(s.metrics);
      a := MetReceive(0);
    } else {
      a := Decode;
    }
  }

  lemma NothingWaiting()
    ensures CoordCount(All, []) == 0 && Reports([]) == 0
  {}

  lemma MetricStep(s: Pipe, w: nat) returns (a: Action)
    requires w < |s.metrics| && s.metrics[w] != Idle && s.coord == []
    ensures Enabled(s, a)
  {
    match s.metrics[w]
    case Scoring(_) => a := Score(w, true);
    case Returning(_) => a := Return(w);
    case Finishing(_) => a := Finish(w);
    case Giving(_) => a := Give(w);
  }

  lemma FreeEncoder(hs: seq<Hand>)
    requires HandsCount(All, hs) == 0 && |hs| >= 1
    ensures hs[0] == Empty
  {
    if hs[0].Holds? { HandsHave(hs, 0); }
  }

  lemma FreeMetric(ms: seq<Metric>)
    requires MetricsCount(All, ms) + Givings(ms) == 0 && |ms| >= 1
    ensures ms[0] == Idle
  {
    if ms[0] != Idle { MetricsBusy(ms, 0); }
  }

  lemma {:induction false} MetricsBusy(ms: seq<Metric>, w: nat)
    requires w < |ms| && ms[w] != Idle
    ensures MetricsCount(All, ms) + Givings(ms) >= 1
  {
    if w < |ms| - 1 { MetricsBusy(ms[..|ms| - 1], w); }
  }
}
