/**
 * The target-quality search of one chunk: probe a quantizer on the grid, score it, narrow the interval.
 * Quantizers are counted in grid steps; scores are real numbers.
 */
module TqSearch {
  import opened Bytes

  datatype Probe = Probe(crf: int, score: real)

  /** `butter` metrics fall with quality, the others rise. */
  datatype Ctx = Ctx(target: real, tolerance: real, butter: bool, qpMin: int, qpMax: int)

  ghost predicate CtxOk(c: Ctx) { c.tolerance >= 0.0 && c.qpMin <= c.qpMax }

  function Abs(x: real): real { if x < 0.0 then -x else x }

  predicate Converged(c: Ctx, score: real) { Abs(score - c.target) <= c.tolerance }

  /** Another probe says the score does not fall as the quantizer rises. */
  predicate Contradicts(probes: seq<Probe>, crf: int, score: real)
  {
    exists p :: p in probes && (p.crf - crf) as real * (p.score - score) >= 0.0
  }

  /** The interval after a probe that missed. */
  function Bounds(c: Ctx, min: int, max: int, crf: int, score: real): (int, int)
  {
    if c.butter then
      if score > c.target + c.tolerance then (min, crf - 1) else if score < c.target - c.tolerance then (crf + 1, max)
          else (min, max)
    else
      if score < c.target - c.tolerance then (min, crf - 1) else if score > c.target + c.tolerance then (crf + 1, max)
          else (min, max)
  }

  /** `f32::round`: half away from zero. */
  function Round(d: real): int { if d >= 0.0 then (d + 0.5).Floor else 0 - (0.5 - d).Floor }

  function Clamp(x: int, lo: int, hi: int): int { if x < lo then lo else if x > hi then hi else x }

  /**
   * Where to probe next, from the probes and the interval: bisection at first, then interpolation;
   * either may return anything.
   */
  type Guide = (seq<Probe>, int, int) -> real

  function Pick(guide: Guide, probes: seq<Probe>, min: int,
                max: int): int { Clamp(Round(guide(probes, min, max)), min, max) }

  // ---- the best probe

  /** `min_by` of the distance to the target: the first of the closest. */
  function BestIndex(c: Ctx, probes: seq<Probe>): (b: nat)
    requires |probes| > 0
    ensures b < |probes|
  {
    var n := |probes| - 1;
    if n == 0 then 0
    else
      var b := BestIndex(c, probes[..n]);
      if Abs(probes[n].score - c.target) < Abs(probes[b].score - c.target) then n else b
  }

  lemma BestSnoc(c: Ctx, probes: seq<Probe>, p: Probe)
    ensures BestIndex(c, probes + [p]) ==
      if |probes| == 0 then 0
      else if Abs(p.score - c.target) < Abs(probes[BestIndex(c, probes)].score - c.target) then |probes|
          else BestIndex(c, probes)
  {
    hide Abs;
    assert (probes + [p])[..|probes|] == probes;
  }

  lemma {:induction false} BestIsFirstClosest(c: Ctx, probes: seq<Probe>)
    requires |probes| > 0
    ensures var b := BestIndex(c, probes);
            && (forall i :: 0 <= i < |probes| ==> Abs(probes[b].score - c.target) <= Abs(probes[i].score - c.target))
            && (forall i :: 0 <= i < b ==> Abs(probes[b].score - c.target) < Abs(probes[i].score - c.target))
  {
    hide Abs;
    if |probes| > 1 { BestIsFirstClosest(c, probes[..|probes| - 1]); }
  }

  // ---- the state of a chunk

  class TqState {
    var probes: seq<Probe>
    var searchMin: int
    var searchMax: int
    var round: nat
    var lastCrf: int
    var finalEnc: bool
    var best: Probe
    var probe: seq<byte>        // what the encoder wrote last
    var bestProbe: seq<byte>    // what it wrote for the best probe so far
    var bestDiff: Option<real>  // None is infinity

    constructor ()
      ensures probes == [] && bestDiff == None
    {
      probes, searchMin, searchMax, round, lastCrf, finalEnc := [], 0, 0, 0, 0, false;
      best, probe, bestProbe, bestDiff := Probe(0, 0.0), [], [], None;
    }

    method Arm(c: Ctx)
      modifies this
      ensures probes == [] && searchMin == c.qpMin && searchMax == c.qpMax && round == 0 && !finalEnc
      ensures bestProbe == [] && bestDiff == None && probe == old(probe)
    {
      probes, searchMin, searchMax, round, lastCrf, finalEnc := [], c.qpMin, c.qpMax, 0, 0, false;
      bestProbe, bestDiff := [], None;
    }

    /** The retained octets are those of the probe `BestIndex` selects. */
    ghost predicate Retains(c: Ctx, encode: int -> seq<byte>)
      reads this
    {
      if probes == [] then bestDiff == None
      else
        var b := probes[BestIndex(c, probes)];
        bestDiff == Some(Abs(b.score - c.target)) && bestProbe == encode(b.crf)
    }

    method SearchCrf(guide: Guide) returns (crf: int)
      modifies this
      ensures crf == Pick(guide, probes, searchMin, searchMax) == lastCrf && round == old(round) + 1
      ensures probes == old(probes) && searchMin == old(searchMin) && searchMax == old(searchMax)
      ensures probe == old(probe) && bestProbe == old(bestProbe) && bestDiff == old(bestDiff)
              && finalEnc == old(finalEnc)
    {
      round := round + 1;
      lastCrf := Clamp(Round(guide(probes, searchMin, searchMax)), searchMin, searchMax);
      crf := lastCrf;
    }

    /** Keeps the new octets when they are strictly closer than any before. */
    method Retain(c: Ctx, score: real)
      modifies this
      ensures probes == old(probes) && searchMin == old(searchMin) && searchMax == old(searchMax)
              && lastCrf == old(lastCrf) && finalEnc == old(finalEnc)
      ensures var diff := Abs(score - c.target);
              if old(bestDiff).None? || diff < old(bestDiff).value then bestDiff == Some(diff)
                  && bestProbe == old(probe) && probe == old(bestProbe)
              else bestDiff == old(bestDiff) && bestProbe == old(bestProbe) && probe == old(probe)
    {
      var diff := Abs(score - c.target);
      if bestDiff.None? || diff < bestDiff.value {
        bestDiff := Some(diff);
        probe, bestProbe := bestProbe, probe;
      }
    }

    method UpBounds(c: Ctx, score: real) returns (empty: bool)
      modifies this
      ensures (searchMin, searchMax) == Bounds(c, old(searchMin), old(searchMax), lastCrf, score)
              && empty == (searchMin > searchMax)
      ensures probes == old(probes) && lastCrf == old(lastCrf) && probe == old(probe) && bestProbe == old(bestProbe)
              && bestDiff == old(bestDiff)
    {
      if c.butter {
        if score > c.target + c.tolerance {
          searchMax := lastCrf - 1;
        } else if score < c.target - c.tolerance {
          searchMin := lastCrf + 1;
        }
      } else if score < c.target - c.tolerance {
        searchMax := lastCrf - 1;
      } else if score > c.target + c.tolerance {
        searchMin := lastCrf + 1;
      }
      empty := searchMin > searchMax;
    }

    /** The abstract search this state is at. */
    function Now(done: bool): Search
      reads this
    {
      Search(probes, searchMin, searchMax, done)
    }

    /** One scored probe: retained if best, judged, recorded. */
    method Judge(c: Ctx, score: real, ghost encode: int -> seq<byte>) returns (done: bool)
      requires Retains(c, encode) && probe == encode(lastCrf)
      modifies this
      ensures Now(done) == Scored(c, old(Now(false)), old(lastCrf), score)
      ensures Retains(c, encode)
    {
      hide Abs, Bounds, BestIndex, Contradicts, Converged;
      BestSnoc(c, probes, Probe(lastCrf, score));
      Retain(c, score);
      done := Converged(c, score);
      if !done { done := Contradicts(probes, lastCrf, score); }
      if !done { done := UpBounds(c, score); }
      probes := probes + [Probe(lastCrf, score)];
    }
  }

  // ---- the search

  datatype Search = Search(probes: seq<Probe>, min: int, max: int, done: bool)

  function Scored(c: Ctx, s: Search, crf: int, score: real): Search
  {
    var probes := s.probes + [Probe(crf, score)];
    if Converged(c, score) || Contradicts(s.probes, crf, score) then Search(probes, s.min, s.max, true)
    else
      var (min, max) := Bounds(c, s.min, s.max, crf, score);
      Search(probes, min, max, min > max)
  }

  function Next(c: Ctx, guide: Guide, score: int -> real, s: Search): Search
  {
    var crf := Pick(guide, s.probes, s.min, s.max);
    Scored(c, s, crf, score(crf))
  }

  /** Room left in the interval. */
  function Room(s: Search): int { if s.done then 0 else 1 + s.max - s.min }

  /**
   * An unfinished round leaves a strictly smaller interval without the quantizer just probed, whatever
   * the guide returned.
   */
  lemma NextShrinks(c: Ctx, guide: Guide, score: int -> real, s: Search)
    requires CtxOk(c) && !s.done && s.min <= s.max
    ensures var t := Next(c, guide, score, s);
            var crf := Pick(guide, s.probes, s.min, s.max);
            && s.min <= crf <= s.max && t.probes == s.probes + [Probe(crf, score(crf))] && 0 <= Room(t) < Room(s)
            && (!t.done ==>
                  s.min <= t.min <= t.max <= s.max && !(t.min <= crf <= t.max) && (t.min == s.min || t.max == s.max))
  {
    hide Contradicts;
  }

  function Run(c: Ctx, guide: Guide, score: int -> real, s: Search): Search
    requires CtxOk(c) && (s.done || s.min <= s.max)
    decreases Room(s)
  {
    if s.done then s
    else
      NextShrinks(c, guide, score, s);
      Run(c, guide, score, Next(c, guide, score, s))
  }

  /** The search of a chunk, from the whole interval. */
  function Searched(c: Ctx, guide: Guide, score: int -> real): Search
    requires CtxOk(c)
  {
    Run(c, guide, score, Search([], c.qpMin, c.qpMax, false))
  }

  /** Encoder and metric worker in turn until a round completes; the octets kept are the best probe's. */
  method SearchChunk(c: Ctx, guide: Guide, score: int -> real, encode: int -> seq<byte>)
    returns (best: Probe, kept: seq<byte>, ghost probes: seq<Probe>)
    requires CtxOk(c)
    ensures probes == Searched(c, guide, score).probes != []
    ensures best == probes[BestIndex(c, probes)] && kept == encode(best.crf)
  {
    hide Abs, Bounds, Contradicts, Pick;
    var tq := new TqState();
    tq.Arm(c);
    var done := false;
    while !done
      invariant tq.Retains(c, encode) && (done ==> tq.probes != [])
      invariant done || tq.searchMin <= tq.searchMax
      invariant Run(c, guide, score, tq.Now(done)) == Searched(c, guide, score)
      decreases Room(tq.Now(done))
    {
      NextShrinks(c, guide, score, tq.Now(false));
      var crf := tq.SearchCrf(guide);
      tq.probe := encode(crf);
      done := tq.Judge(c, score(crf), encode);
    }
    probes := tq.probes;
    best := tq.probes[BestIndex(c, tq.probes)];
    kept := tq.bestProbe;
  }
}
