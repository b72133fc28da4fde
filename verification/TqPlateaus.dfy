/** Rounding, and scores that stay the same from one quantizer to another. */
module TqPlateaus {
  import opened Bytes
  import opened TqSearch
  import opened TqOutcome

  // ---- rounding and clamping

  /** The nearest integer, and of two equally near the one farther from zero. */
  lemma RoundNearest(d: real, n: int)
    ensures Abs(Round(d) as real - d) <= 0.5
    ensures Abs(n as real - d) >= Abs(Round(d) as real - d)
    ensures n != Round(d) && Abs(n as real - d) == 0.5 ==> Abs(n as real) < Abs(Round(d) as real)
  {
    if d >= 0.0 {
      var r := (d + 0.5).Floor;
      assert r as real <= d + 0.5 < r as real + 1.0;
      Apart(n, r, d);
    } else {
      var r := (0.5 - d).Floor;
      assert r as real <= 0.5 - d < r as real + 1.0;
      assert (0 - r) as real == 0.0 - r as real;
      Apart(0 - n, r, 0.0 - d);
      assert (0 - n) as real == 0.0 - n as real;
    }
  }

  lemma Apart(n: int, r: int, d: real)
    requires d >= 0.0 && r as real <= d + 0.5 < r as real + 1.0
    ensures n == r || Abs(n as real - d) >= 0.5 >= Abs(r as real - d)
    ensures n != r && Abs(n as real - d) == 0.5 ==> n == r - 1 && r > 0
  {
    if n < r { assert n as real <= r as real - 1.0; }
    if n > r { assert n as real >= r as real + 1.0; }
    if n < r - 1 { assert n as real <= r as real - 2.0; }
  }

  /** Of the interval the quantizer nearest to the one asked for. */
  lemma ClampNearest(x: int, lo: int, hi: int, y: int)
    requires lo <= y <= hi
    ensures lo <= Clamp(x, lo, hi) <= hi
    ensures var d, e := Clamp(x, lo, hi) - x, y - x; (if d < 0 then -d else d) <= (if e < 0 then -e else e)
  {}

  // ---- contradiction and convergence in terms of order

  /** An earlier probe is of the same quantizer, has the same score, or has both less or both more. */
  predicate OutOfOrder(p: Probe, crf: int, score: real)
  {
    p.crf == crf || p.score == score || (p.crf < crf <==> p.score < score)
  }

  lemma ProductSign(p: Probe, crf: int, score: real)
    ensures (p.crf - crf) as real * (p.score - score) >= 0.0 <==> OutOfOrder(p, crf, score)
  {
    var d, e := (p.crf - crf) as real, p.score - score;
    if p.crf == crf { Times(0.0, e); } else if p.score == score { Times(d, 0.0); }
    else if p.crf < crf {
      if e < 0.0 { NegNeg(d, e); } else { PosNeg(e, d); }
    } else {
      if e < 0.0 { PosNeg(d, e); } else { PosPos(d, e); }
    }
  }

  lemma Times(x: real, y: real)
    requires x == 0.0 || y == 0.0
    ensures x * y == 0.0
  {}

  lemma PosPos(x: real, y: real)
    requires x > 0.0 && y > 0.0
    ensures x * y > 0.0
  {}

  lemma ContradictsIff(probes: seq<Probe>, crf: int, score: real)
    ensures Contradicts(probes, crf, score) <==> exists p :: p in probes && OutOfOrder(p, crf, score)
  {
    hide OutOfOrder;
    forall p: Probe | true ensures (p.crf - crf) as real * (p.score - score) >= 0.0 <==> OutOfOrder(p, crf, score) {
      ProductSign(p, crf, score);
    }
  }

  lemma ConvergedIff(c: Ctx, score: real)
    ensures Converged(c, score) <==> c.target - c.tolerance <= score <= c.target + c.tolerance
  {}

  // ---- a score that never goes the wrong way

  /** Lower quantizers are no worse: scores do not rise, those of distances do not fall. */
  ghost predicate Monotone(c: Ctx, score: int -> real)
  {
    forall a, b :: c.qpMin <= a < b <= c.qpMax ==> if c.butter then score(a) <= score(b) else score(a) >= score(b)
  }

  /** A missed quantizer's interval keeps every one that converges, and not itself. */
  lemma BoundsKeep(c: Ctx, score: int -> real, min: int, max: int, crf: int, k: int)
    requires CtxOk(c) && Monotone(c, score) && c.qpMin <= min <= crf <= max <= c.qpMax && min <= k <= max
    requires Converged(c, score(k)) && !Converged(c, score(crf))
    ensures var (lo, hi) := Bounds(c, min, max, crf, score(crf)); lo <= k <= hi && !(lo <= crf <= hi)
  {
    ConvergedIff(c, score(k));
    ConvergedIff(c, score(crf));
  }

  /** With a score that does not rise, only one seen before contradicts. */
  lemma EqualContradicts(c: Ctx, score: int -> real, s: Search, crf: int)
    requires Sound(c, score, s) && !s.done && !c.butter && Monotone(c, score) && s.min <= crf <= s.max
    ensures Contradicts(s.probes, crf, score(crf)) <==> exists p :: p in s.probes && p.score == score(crf)
  {
    ContradictsIff(s.probes, crf, score(crf));
    forall p | p in s.probes ensures OutOfOrder(p, crf, score(crf)) <==> p.score == score(crf) {
      var i :| 0 <= i < |s.probes| && s.probes[i] == p;
      assert c.qpMin <= s.probes[i].crf <= c.qpMax && s.probes[i].score == score(s.probes[i].crf);
    }
  }

  ghost predicate Distinct(probes: seq<Probe>)
  {
    forall i, j :: 0 <= i < j < |probes| ==> probes[i].score != probes[j].score
  }

  ghost predicate Hit(c: Ctx, probes: seq<Probe>) { exists p :: p in probes && Converged(c, p.score) }

  /** So far no score has come twice, none has converged, and those that would are still in the interval. */
  ghost predicate OnWay(c: Ctx, score: int -> real, s: Search, k: int)
  {
    if s.done then Hit(c, s.probes) <==> Distinct(s.probes)
    else s.min <= k <= s.max && Distinct(s.probes) && !Hit(c, s.probes)
  }

  lemma OnWayNext(c: Ctx, guide: Guide, score: int -> real, s: Search, k: int)
    requires CtxOk(c) && !c.butter && Monotone(c, score) && Converged(c, score(k))
    requires Sound(c, score, s) && !s.done && OnWay(c, score, s, k)
    ensures OnWay(c, score, Next(c, guide, score, s), k)
  {
    hide Contradicts, Converged, Sound, Monotone, Bounds;
    SoundFacts(c, score, s);
    var crf := Pick(guide, s.probes, s.min, s.max);
    NextShrinks(c, guide, score, s);
    EqualContradicts(c, score, s, crf);
    OneMore(c, s.probes, Probe(crf, score(crf)));
    if !Converged(c, score(crf)) { BoundsKeep(c, score, s.min, s.max, crf, k); }
  }

  lemma OneMore(c: Ctx, probes: seq<Probe>, p: Probe)
    requires Distinct(probes) && !Hit(c, probes)
    ensures Hit(c, probes + [p]) <==> Converged(c, p.score)
    ensures Distinct(probes + [p]) <==> !exists q :: q in probes && q.score == p.score
    ensures Converged(c, p.score) ==> Distinct(probes + [p])
  {
    hide Converged;
    var all := probes + [p];
    assert all[|probes|] == p;
    if q :| q in probes && q.score == p.score {
      var i :| 0 <= i < |probes| && probes[i] == q;
      assert all[i].score == all[|probes|].score;
    }
  }

  lemma {:induction false} OnWayRun(c: Ctx, guide: Guide, score: int -> real, s: Search, k: int)
    requires CtxOk(c) && !c.butter && Monotone(c, score) && Converged(c, score(k))
    requires Sound(c, score, s) && OnWay(c, score, s, k)
    ensures OnWay(c, score, Run(c, guide, score, s), k) && Run(c, guide, score, s).done
    decreases Room(s)
  {
    hide Next, Sound, OnWay, Monotone, Converged;
    SoundFacts(c, score, s);
    if !s.done {
      NextShrinks(c, guide, score, s);
      NextBounded(c, guide, score, s);
      SoundNext(c, guide, score, s);
      OnWayNext(c, guide, score, s, k);
      OnWayRun(c, guide, score, Next(c, guide, score, s), k);
    }
  }

  /**
   * With a score that does not rise and some quantizer that converges, the search settles on one that does
   * if and only if no score comes twice: a plateau ends it, wherever the target lies.
   */
  lemma PlateauMisses(c: Ctx, guide: Guide, score: int -> real, k: int)
    requires CtxOk(c) && !c.butter && Monotone(c, score) && c.qpMin <= k <= c.qpMax && Converged(c, score(k))
    ensures Searched(c, guide, score).probes != []
    ensures Converged(c, Settled(c, guide, score).score) <==> Distinct(Searched(c, guide, score).probes)
  {
    hide Run, Monotone, Converged, Distinct;
    var s := Search([], c.qpMin, c.qpMax, false);
    SearchProbes(c, guide, score);
    NothingYet(c);
    OnWayRun(c, guide, score, s, k);
    var probes := Searched(c, guide, score).probes;
    BestHits(c, probes);
  }

  lemma NothingYet(c: Ctx)
    ensures Distinct([]) && !Hit(c, [])
  {}

  lemma BestHits(c: Ctx, probes: seq<Probe>)
    requires |probes| > 0
    ensures Converged(c, probes[BestIndex(c, probes)].score) <==> Hit(c, probes)
  {
    BestIsFirstClosest(c, probes);
    if Hit(c, probes) {
      var p :| p in probes && Converged(c, p.score);
      var i :| 0 <= i < |probes| && probes[i] == p;
    }
  }

  /** It happens: of scores 10, ..., 10, 3 against a target of 3 bisection sees the 10 at 4 and at 7, and stops. */
  lemma PlateauExample(guide: Guide, score: int -> real)
    requires forall probes, min: int, max: int :: guide(probes, min, max) == (min + max) as real / 2.0
    requires forall k: int :: score(k) == if k < 8 then 10.0 else 3.0
    ensures var c := Ctx(3.0, 0.5, false, 0, 8);
            && CtxOk(c) && Monotone(c, score) && Converged(c, score(8))
            && Searched(c, guide, score).probes == [Probe(4, 10.0), Probe(7, 10.0)]
  {
    hide Run, Pick, Contradicts;
    var c := Ctx(3.0, 0.5, false, 0, 8);
    var s := Search([], 0, 8, false);
    Halves(guide, [], 0, 8);
    Halves(guide, [Probe(4, 10.0)], 5, 8);
    var t := Next(c, guide, score, s);
    ContradictsIff([], 4, 10.0);
    ContradictsIff([Probe(4, 10.0)], 7, 10.0);
    assert Probe(4, 10.0) in [Probe(4, 10.0)];
    assert t == Search([Probe(4, 10.0)], 5, 8, false);
    var u := Next(c, guide, score, t);
    assert u.done && u.probes == [Probe(4, 10.0), Probe(7, 10.0)];
    RunOn(c, guide, score, s);
    RunOn(c, guide, score, t);
    RunOn(c, guide, score, u);
  }

  lemma Halves(guide: Guide, probes: seq<Probe>, min: int, max: int)
    requires guide(probes, min, max) == (min + max) as real / 2.0
    ensures min == 0 && max == 8 ==> Pick(guide, probes, min, max) == 4
    ensures min == 5 && max == 8 ==> Pick(guide, probes, min, max) == 7
  {
    if min == 0 && max == 8 {
      assert guide(probes, min, max) == 4.0;
      assert Round(4.0) == 4;
    }
    if min == 5 && max == 8 {
      assert guide(probes, min, max) == 6.5;
      assert Round(6.5) == 7;
    }
  }
}
