/** Where the target-quality search ends. */
module TqOutcome {
  import opened Bytes
  import opened TqSearch

  // ---- any score

  /** Distinct quantizers of the grid, none left in the interval while the search goes on. */
  ghost predicate Sound(c: Ctx, score: int -> real, s: Search)
  {
    && c.qpMin <= s.min && s.max <= c.qpMax && (s.done || s.min <= s.max)
    && (forall i :: 0 <= i < |s.probes| ==>
        c.qpMin <= s.probes[i].crf <= c.qpMax && s.probes[i].score == score(s.probes[i].crf))
    && (forall i, j :: 0 <= i < j < |s.probes| ==> s.probes[i].crf != s.probes[j].crf)
    && (!s.done ==> forall i :: 0 <= i < |s.probes| ==> !(s.min <= s.probes[i].crf <= s.max))
    && |s.probes| + Room(s) <= 1 + c.qpMax - c.qpMin
  }

  lemma SoundNext(c: Ctx, guide: Guide, score: int -> real, s: Search)
    requires CtxOk(c) && !s.done && Sound(c, score, s)
    ensures Bounded(c, Next(c, guide, score, s)) ==> Sound(c, score, Next(c, guide, score, s))
  {
    hide Next, Pick;
    NextShrinks(c, guide, score, s);
  }

  ghost predicate Bounded(c: Ctx, s: Search) { c.qpMin <= s.min && s.max <= c.qpMax }

  /** A round, finished or not, stays within the quantizers allowed. */
  lemma NextBounded(c: Ctx, guide: Guide, score: int -> real, s: Search)
    requires CtxOk(c) && !s.done && s.min <= s.max && Bounded(c, s)
    ensures Bounded(c, Next(c, guide, score, s))
  {
    hide Contradicts, Converged;
  }

  lemma {:induction false} SoundRun(c: Ctx, guide: Guide, score: int -> real, s: Search)
    requires CtxOk(c) && Sound(c, score, s)
    ensures Sound(c, score, Run(c, guide, score, s)) && Run(c, guide, score, s).done
    decreases Room(s)
  {
    hide Next, Sound;
    SoundFacts(c, score, s);
    if !s.done {
      NextShrinks(c, guide, score, s);
      NextBounded(c, guide, score, s);
      SoundNext(c, guide, score, s);
      SoundRun(c, guide, score, Next(c, guide, score, s));
    }
  }

  lemma SoundFacts(c: Ctx, score: int -> real, s: Search)
    requires Sound(c, score, s)
    ensures (s.done || s.min <= s.max) && Bounded(c, s)
  {}

  /**
   * Whatever the guide and the scores: the search ends, after distinct probes of the grid, no more
   * than it has quantizers.
   */
  lemma ProbesDistinct(c: Ctx, guide: Guide, score: int -> real)
    requires CtxOk(c)
    ensures var probes := Searched(c, guide, score).probes;
            && Searched(c, guide, score).done && |probes| <= 1 + c.qpMax - c.qpMin
            && (forall i :: 0 <= i < |probes| ==>
                c.qpMin <= probes[i].crf <= c.qpMax && probes[i].score == score(probes[i].crf))
            && (forall i, j :: 0 <= i < j < |probes| ==> probes[i].crf != probes[j].crf)
  {
    hide Run;
    SoundRun(c, guide, score, Search([], c.qpMin, c.qpMax, false));
  }

  // ---- quality falls as the quantizer rises

  ghost predicate Falls(c: Ctx, score: int -> real)
  {
    forall a, b :: c.qpMin <= a < b <= c.qpMax ==> score(a) > score(b)
  }

  ghost predicate Rises(c: Ctx, score: int -> real)
  {
    forall a, b :: c.qpMin <= a < b <= c.qpMax ==> score(a) < score(b)
  }

  /** While the search goes on every quantizer that would converge is in the interval. */
  ghost predicate Keeps(c: Ctx, score: int -> real, s: Search)
  {
    && (!s.done ==> forall k :: c.qpMin <= k <= c.qpMax && Converged(c, score(k)) ==> s.min <= k <= s.max)
    && (s.done ==> (exists p :: p in s.probes && Converged(c, p.score)) || forall k :: c.qpMin <= k <= c.qpMax ==>
        !Converged(c, score(k)))
  }

  lemma SignProduct(d: int, e: real)
    requires d != 0 && e != 0.0 && (d > 0) == (e < 0.0)
    ensures d as real * e < 0.0
  {
    if d > 0 { assert d as real > 0.0; PosNeg(d as real, e); } else { assert d as real < 0.0; PosNeg(e, d as real); }
  }

  lemma PosNeg(x: real, y: real)
    requires x > 0.0 && y < 0.0
    ensures x * y < 0.0
  {}

  /** No probe ever contradicts a falling score. */
  lemma NoContradiction(c: Ctx, score: int -> real, s: Search, crf: int)
    requires Sound(c, score, s) && !s.done && Falls(c, score) && s.min <= crf <= s.max
    ensures !Contradicts(s.probes, crf, score(crf))
  {
    hide Falls, Contradicts;
    forall p | p in s.probes ensures (p.crf - crf) as real * (p.score - score(crf)) < 0.0 {
      var i :| 0 <= i < |s.probes| && s.probes[i] == p;
      ProbeAgrees(c, score, p, crf);
    }
    AllNegative(s.probes, crf, score(crf));
  }

  lemma AllNegative(probes: seq<Probe>, crf: int, score: real)
    requires forall p :: p in probes ==> (p.crf - crf) as real * (p.score - score) < 0.0
    ensures !Contradicts(probes, crf, score)
  {}

  lemma ProbeAgrees(c: Ctx, score: int -> real, p: Probe, crf: int)
    requires Falls(c, score) && c.qpMin <= p.crf <= c.qpMax && c.qpMin <= crf <= c.qpMax && p.crf != crf
             && p.score == score(p.crf)
    ensures (p.crf - crf) as real * (p.score - score(crf)) < 0.0
  {
    SignProduct(p.crf - crf, p.score - score(crf));
  }

  lemma KeepsNext(c: Ctx, guide: Guide, score: int -> real, s: Search)
    requires CtxOk(c) && !c.butter && !s.done && Sound(c, score, s) && Falls(c, score) && Keeps(c, score, s)
    ensures Keeps(c, score, Next(c, guide, score, s))
  {
    hide Contradicts;
    var crf := Pick(guide, s.probes, s.min, s.max);
    NextShrinks(c, guide, score, s);
    NoContradiction(c, score, s, crf);
    var t := Next(c, guide, score, s);
    if Converged(c, score(crf)) {
      assert t.probes[|s.probes|] in t.probes;
    } else {
      forall k | c.qpMin <= k <= c.qpMax && Converged(c, score(k)) ensures t.min <= k <= t.max {
        Side(c, score, crf, k);
      }
    }
  }

  /** A missed quantizer tells on which side those that converge lie. */
  lemma Side(c: Ctx, score: int -> real, crf: int, k: int)
    requires CtxOk(c) && Falls(c, score) && c.qpMin <= k <= c.qpMax && c.qpMin <= crf <= c.qpMax
    requires Converged(c, score(k)) && !Converged(c, score(crf))
    ensures score(crf) < c.target - c.tolerance || score(crf) > c.target + c.tolerance
    ensures score(crf) < c.target - c.tolerance ==> k < crf
    ensures score(crf) > c.target + c.tolerance ==> k > crf
  {}

  lemma {:induction false} KeepsRun(c: Ctx, guide: Guide, score: int -> real, s: Search)
    requires CtxOk(c) && !c.butter && Sound(c, score, s) && Falls(c, score) && Keeps(c, score, s)
    ensures Keeps(c, score, Run(c, guide, score, s))
    decreases Room(s)
  {
    hide Next, Sound, Keeps, Falls;
    SoundFacts(c, score, s);
    if !s.done {
      NextShrinks(c, guide, score, s);
      NextBounded(c, guide, score, s);
      SoundNext(c, guide, score, s);
      KeepsNext(c, guide, score, s);
      KeepsRun(c, guide, score, Next(c, guide, score, s));
    }
  }

  /** The quantizer the search settles on. */
  function Settled(c: Ctx, guide: Guide, score: int -> real): Probe
    requires CtxOk(c) && Searched(c, guide, score).probes != []
  {
    var probes := Searched(c, guide, score).probes;
    probes[BestIndex(c, probes)]
  }

  lemma SearchProbes(c: Ctx, guide: Guide, score: int -> real)
    requires CtxOk(c)
    ensures Searched(c, guide, score).probes != []
  {
    var s := Search([], c.qpMin, c.qpMax, false);
    NextShrinks(c, guide, score, s);
    NextBounded(c, guide, score, s);
    ProbesGrow(c, guide, score, Next(c, guide, score, s));
  }

  lemma {:induction false} ProbesGrow(c: Ctx, guide: Guide, score: int -> real, s: Search)
    requires CtxOk(c) && (s.done || s.min <= s.max)
    ensures s.probes <= Run(c, guide, score, s).probes
    decreases Room(s)
  {
    hide Next;
    if !s.done {
      NextShrinks(c, guide, score, s);
      ProbesGrow(c, guide, score, Next(c, guide, score, s));
    }
  }

  /** With a falling score, if any quantizer of the grid converges the search settles on one that does. */
  lemma FindsConverged(c: Ctx, guide: Guide, score: int -> real, k: int)
    requires CtxOk(c) && !c.butter && Falls(c, score) && c.qpMin <= k <= c.qpMax && Converged(c, score(k))
    ensures Searched(c, guide, score).probes != [] && Converged(c, Settled(c, guide, score).score)
  {
    hide Run, Falls;
    var s := Search([], c.qpMin, c.qpMax, false);
    SearchProbes(c, guide, score);
    SoundRun(c, guide, score, s);
    KeepsRun(c, guide, score, s);
    var probes := Searched(c, guide, score).probes;
    var p :| p in probes && Converged(c, p.score);
    BestIsFirstClosest(c, probes);
    var i :| 0 <= i < |probes| && probes[i] == p;
  }

  // ---- metrics that rise with the quantizer

  lemma RunOn(c: Ctx, guide: Guide, score: int -> real, s: Search)
    requires CtxOk(c) && (s.done || s.min <= s.max)
    ensures s.done ==> Run(c, guide, score, s) == s
    ensures !s.done ==>
      var t := Next(c, guide, score, s);
      (t.done || t.min <= t.max) && Run(c, guide, score, s) == Run(c, guide, score, t)
  {
    hide Next;
    if !s.done { NextShrinks(c, guide, score, s); }
  }

  /** The second probe always contradicts a rising score, so there is never a third. */
  lemma RisesStops(c: Ctx, guide: Guide, score: int -> real)
    requires CtxOk(c) && Rises(c, score)
    ensures var s := Search([], c.qpMin, c.qpMax, false);
            var t := Next(c, guide, score, s);
            && (t.done || t.min <= t.max)
            && Searched(c, guide, score) == (if t.done then t else Next(c, guide, score, t))
            && |Searched(c, guide, score).probes| <= 2
  {
    hide Contradicts, Converged, Run, Next, Pick, Rises;
    var s := Search([], c.qpMin, c.qpMax, false);
    NextShrinks(c, guide, score, s);
    NextBounded(c, guide, score, s);
    RunOn(c, guide, score, s);
    var t := Next(c, guide, score, s);
    RunOn(c, guide, score, t);
    if !t.done {
      NextShrinks(c, guide, score, t);
      var a, b := Pick(guide, [], c.qpMin, c.qpMax), Pick(guide, t.probes, t.min, t.max);
      assert t.probes == [Probe(a, score(a))];
      InOrder(c, score, a, b);
      SecondContradicts(t.probes, Probe(a, score(a)), b, score(b));
      ContradictedEnds(c, t, b, score(b), guide, score);
      RunOn(c, guide, score, Next(c, guide, score, t));
    }
  }

  lemma InOrder(c: Ctx, score: int -> real, a: int, b: int)
    requires Rises(c, score) && c.qpMin <= a <= c.qpMax && c.qpMin <= b <= c.qpMax && a != b
    ensures (a < b && score(a) < score(b)) || (a > b && score(a) > score(b))
  {}

  lemma ContradictedEnds(c: Ctx, t: Search, crf: int, v: real, guide: Guide, score: int -> real)
    requires Contradicts(t.probes, crf, v) && crf == Pick(guide, t.probes, t.min, t.max) && v == score(crf)
    ensures Next(c, guide, score, t).done && Next(c, guide, score, t).probes == t.probes + [Probe(crf, v)]
  {
    hide Contradicts, Pick;
  }

  lemma SecondContradicts(probes: seq<Probe>, p: Probe, crf: int, score: real)
    requires p in probes && ((p.crf < crf && p.score < score) || (p.crf > crf && p.score > score))
    ensures Contradicts(probes, crf, score)
  {
    var d := (p.crf - crf) as real;
    if p.crf < crf { assert d < 0.0; NegNeg(d, p.score - score); } else { assert d > 0.0; }
  }

  lemma NegNeg(x: real, y: real)
    requires x < 0.0 && y < 0.0
    ensures x * y > 0.0
  {}

  /** The first quantizer probed. */
  function FirstPick(c: Ctx, guide: Guide): int { Pick(guide, [], c.qpMin, c.qpMax) }

  /** The second, if there is one. */
  function SecondPick(c: Ctx, guide: Guide, score: int -> real): Option<int>
  {
    var crf := FirstPick(c, guide);
    var (min, max) := Bounds(c, c.qpMin, c.qpMax, crf, score(crf));
    if min > max then None else Some(Pick(guide, [Probe(crf, score(crf))], min, max))
  }

  lemma FirstRound(c: Ctx, guide: Guide, score: int -> real)
    requires CtxOk(c)
    ensures var s := Search([], c.qpMin, c.qpMax, false);
            var t := Next(c, guide, score, s);
            var a := FirstPick(c, guide);
            && t.probes == [Probe(a, score(a))]
            && (t.done <==> Converged(c, score(a)) || SecondPick(c, guide, score).None?)
            && (!t.done ==> SecondPick(c, guide, score) == Some(Pick(guide, t.probes, t.min, t.max)))
  {
    hide Converged, Pick, Bounds;
    NoneYet(FirstPick(c, guide), score(FirstPick(c, guide)));
  }

  lemma NoneYet(crf: int, score: real)
    ensures !Contradicts([], crf, score)
  {}

  /**
   * So with a rising score the search settles on a quantizer that converges exactly when one of its
   * first two does.
   */
  lemma RisesFinds(c: Ctx, guide: Guide, score: int -> real)
    requires CtxOk(c) && Rises(c, score)
    ensures Searched(c, guide, score).probes != []
    ensures Converged(c, Settled(c, guide, score).score)
       <==> || Converged(c, score(FirstPick(c, guide)))
            || (SecondPick(c, guide, score).Some? && Converged(c, score(SecondPick(c, guide, score).value)))
  {
    hide Run, Rises, Pick, FirstPick, SecondPick, Contradicts, Next, BestIndex;
    RisesStops(c, guide, score);
    FirstRound(c, guide, score);
    var s := Search([], c.qpMin, c.qpMax, false);
    var t := Next(c, guide, score, s);
    var a := Probe(FirstPick(c, guide), score(FirstPick(c, guide)));
    var probes := Searched(c, guide, score).probes;
    if t.done {
      BestIsFirstClosest(c, probes);
    } else {
      NextShrinks(c, guide, score, t);
      var k := Pick(guide, t.probes, t.min, t.max);
      assert probes == [a, Probe(k, score(k))];
      BestIsFirstClosest(c, probes);
      var best := Settled(c, guide, score);
      assert best == probes[0] || best == probes[1];
      assert SecondPick(c, guide, score) == Some(k) && !Converged(c, a.score);
      assert Abs(best.score - c.target) <= Abs(probes[1].score - c.target);
    }
  }

  lemma Halving(guide: Guide, probes: seq<Probe>)
    requires forall min: int, max: int :: guide(probes, min, max) == (min + max) as real / 2.0
    ensures Pick(guide, probes, 0, 8) == 4 && Pick(guide, probes, 0, 3) == 2
  {
    assert guide(probes, 0, 8) == 4.0 && guide(probes, 0, 3) == 1.5;
    assert Round(4.0) == 4 && Round(1.5) == 2;
  }

  /**
   * It can miss: scores 0, 1, 2, ... against a target of 3 are probed by bisection of [0, 8] at 4,
   * then at 2, and that is the end, although 3 would have hit the target.
   */
  lemma RisesCanMiss(guide: Guide, score: int -> real)
    requires forall probes, min: int, max: int :: guide(probes, min, max) == (min + max) as real / 2.0
    requires forall k: int :: score(k) == k as real
    ensures var c := Ctx(3.0, 0.5, true, 0, 8);
            && CtxOk(c) && Rises(c, score) && Converged(c, score(3))
            && FirstPick(c, guide) == 4 && SecondPick(c, guide, score) == Some(2)
            && Searched(c, guide, score).probes != [] && !Converged(c, Settled(c, guide, score).score)
  {
    hide Run, Searched, Pick, BestIndex;
    var c := Ctx(3.0, 0.5, true, 0, 8);
    Halving(guide, []);
    assert score(4) == 4.0 && score(2) == 2.0;
    Halving(guide, [Probe(4, 4.0)]);
    RisesFinds(c, guide, score);
  }
}
