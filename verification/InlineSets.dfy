/** The pass that rewrites the frame and NAL lists of all chunks so that varying parameter sets lead each chunk. */
module InlineSets {
  import opened Ranges
  import opened NalStates
  import opened ParamSets
  import opened FrameContents

  /** (start, count) spans that follow one another, each with at least one frame. */
  ghost predicate FrameSpans(spans: seq<(nat, nat)>, total: nat)
  {
    && (forall c :: 0 <= c < |spans| ==> spans[c].1 > 0 && spans[c].0 + spans[c].1 <= total)
    && (forall c, d :: 0 <= c < d < |spans| ==> spans[c].0 + spans[c].1 <= spans[d].0)
  }

  ghost predicate NalSpans(spans: seq<(nat, nat)>, total: nat)
  {
    forall c :: 0 <= c < |spans| ==> spans[c].0 + spans[c].1 <= total
  }

  function Part<T>(s: seq<T>, span: (nat, nat)): (p: seq<T>)
    requires span.0 + span.1 <= |s|
    ensures |p| == span.1
  {
    s[span.0..span.0 + span.1]
  }

  ghost predicate SetsGiven(psets: seq<seq<ByteRange>>)
  {
    forall c :: 0 <= c < |psets| ==> |psets[c]| == 3
  }

  /** The new units of chunk `c`: its varying sets, then what it had. */
  ghost predicate ChunkDone(frames0: seq<ByteRange>, frames: seq<ByteRange>, nals0: seq<ByteRange>, out: seq<ByteRange>,
                            span: (nat, nat), was: (nat, nat), now: (nat, nat), first: seq<ByteRange>,
                                varies: seq<bool>)
    requires |first| == |varies| == 3
  {
    && span.1 > 0 && span.0 + span.1 <= |frames0| == |frames| && was.0 + was.1 <= |nals0| && now.0 + now.1 <= |out|
    && Part(out, now) == Inline(first, varies, 3) + Part(nals0, was)
    && Part(frames, span) == Fronted(Part(frames0, span), Inline(first, varies, 3))
  }

  lemma ChunkStays(frames0: seq<ByteRange>, frames: seq<ByteRange>, frames2: seq<ByteRange>, nals0: seq<ByteRange>,
                   out: seq<ByteRange>, out2: seq<ByteRange>, span: (nat, nat), was: (nat, nat), now: (nat, nat),
                       first: seq<ByteRange>, varies: seq<bool>)
    requires |first| == |varies| == 3 && ChunkDone(frames0, frames, nals0, out, span, was, now, first, varies)
    requires out <= out2 && |frames2| == |frames| && frames2[..span.0 + span.1] == frames[..span.0 + span.1]
    ensures ChunkDone(frames0, frames2, nals0, out2, span, was, now, first, varies)
  {
    hide Fronted, Inline;
    assert Part(out2, now) == Part(out, now);
    assert Part(frames2, span) == frames2[..span.0 + span.1][span.0..];
    assert Part(frames, span) == frames[..span.0 + span.1][span.0..];
  }

  lemma FrontedIs(frames0: seq<ByteRange>, frames: seq<ByteRange>, span: (nat, nat), f: ByteRange, more: seq<ByteRange>)
    requires span.1 > 0 && span.0 + span.1 <= |frames0| && frames == frames0[span.0 := f]
    requires f == ByteRange(frames0[span.0].offset + |more|, frames0[span.0].len + NalOctets(more))
    ensures Part(frames, span) == Fronted(Part(frames0, span), more)
  {
    hide NalOctets;
  }

  lemma InlineOn(first: seq<ByteRange>, varies: seq<bool>, k: nat, start: seq<ByteRange>)
    requires |first| == |varies| == 3 && k < 3
    ensures var more := Inline(first, varies, k);
            var next := if varies[k] && first[k].len != 0 then [first[k]] else [];
            && start + Inline(first, varies, k + 1) == (start + more) + next
            && |Inline(first, varies, k + 1)| == |more| + |next|
            && NalOctets(Inline(first, varies, k + 1)) == NalOctets(more) + if next == [] then 0 else 4 + first[k].len
  {
    hide NalOctets;
    var more := Inline(first, varies, k);
    assert more + [] == more;
    if varies[k] && first[k].len != 0 { NalOctetsSnoc(more, first[k]); }
    assert start + (more + [first[k]]) == (start + more) + [first[k]];
  }

  /** One chunk's varying sets, and the first frame counting them. */
  method InlineOne(first: seq<ByteRange>, varies: seq<bool>, out0: seq<ByteRange>, f0: ByteRange)
    returns (out: seq<ByteRange>, f: ByteRange)
    requires |first| == |varies| == 3
    ensures out == out0 + Inline(first, varies, 3)
    ensures f == ByteRange(f0.offset + |Inline(first, varies, 3)|, f0.len + NalOctets(Inline(first, varies, 3)))
  {
    hide NalOctets, Inline;
    out, f := out0, f0;
    InlineNone(first, varies);
    assert out0 + [] == out0;
    for k := 0 to 3
      invariant out == out0 + Inline(first, varies, k)
      invariant f == ByteRange(f0.offset + |Inline(first, varies, k)|, f0.len + NalOctets(Inline(first, varies, k)))
    {
      InlineOn(first, varies, k, out0);
      assert out + [] == out;
      if varies[k] {
        var r := first[k];
        if r.len != 0 {
          out := out + [r];
          f := ByteRange(f.offset + 1, f.len + 4 + r.len);
        }
      }
    }
  }

  lemma InlineNone(first: seq<ByteRange>, varies: seq<bool>)
    requires |first| == |varies| == 3
    ensures Inline(first, varies, 0) == [] && NalOctets([]) == 0
  {}

  /** Chunks `done` and later ones, in terms of what the lists were. */
  ghost predicate Rewritten(frames0: seq<ByteRange>, frames: seq<ByteRange>, nals0: seq<ByteRange>,
                            out: seq<ByteRange>, ranges: seq<(nat, nat)>,
                            was: seq<(nat, nat)>, now: seq<(nat, nat)>, psets: seq<seq<ByteRange>>, varies: seq<bool>,
                                done: nat)
    requires |varies| == 3 && SetsGiven(psets) && |ranges| == |was| == |psets| && done <= |ranges|
  {
    && |frames| == |frames0| && |now| == |was|
    && (forall c :: 0 <= c < done ==>
        ChunkDone(frames0, frames, nals0, out, ranges[c], was[c], now[c], psets[c], varies))
    && (forall c :: done <= c < |was| ==> now[c] == was[c])
  }

  /** Of the frames only the first one of each chunk done so far is another. */
  ghost predicate OnlyFirsts(frames0: seq<ByteRange>, frames: seq<ByteRange>, ranges: seq<(nat, nat)>, done: nat)
    requires done <= |ranges|
  {
    |frames| == |frames0| && forall i :: 0 <= i < |frames| && (forall c :: 0 <= c < done ==> ranges[c].0 != i) ==>
        frames[i] == frames0[i]
  }

  lemma OnlyFirstsOn(frames0: seq<ByteRange>, frames: seq<ByteRange>, ranges: seq<(nat, nat)>, c: nat, f: ByteRange)
    requires c < |ranges| && OnlyFirsts(frames0, frames, ranges, c) && ranges[c].0 < |frames|
    ensures OnlyFirsts(frames0, frames[ranges[c].0 := f], ranges, c + 1)
  {}

  /** Nothing of chunk `c` or later has been touched. */
  ghost predicate Untouched(frames0: seq<ByteRange>, frames: seq<ByteRange>, ranges: seq<(nat, nat)>, done: nat)
    requires done <= |ranges|
  {
    |frames| == |frames0| && (done < |ranges| ==>
                              ranges[done].0 <= |frames0| && frames[ranges[done].0..] == frames0[ranges[done].0..])
  }

  lemma RewrittenOn(frames0: seq<ByteRange>, frames: seq<ByteRange>, frames2: seq<ByteRange>, nals0: seq<ByteRange>,
                    out: seq<ByteRange>, out2: seq<ByteRange>,
                    ranges: seq<(nat, nat)>, was: seq<(nat, nat)>, now: seq<(nat, nat)>, now2: seq<(nat, nat)>,
                        psets: seq<seq<ByteRange>>, varies: seq<bool>,
                    c: nat, f: ByteRange)
    requires |varies| == 3 && SetsGiven(psets) && |ranges| == |was| == |psets| && c < |ranges|
    requires FrameSpans(ranges, |frames0|) && NalSpans(was, |nals0|)
    requires Rewritten(frames0, frames, nals0, out, ranges, was, now, psets, varies, c)
             && Untouched(frames0, frames, ranges, c)
    requires f == ByteRange(frames0[ranges[c].0].offset + |Inline(psets[c], varies, 3)|,
                            frames0[ranges[c].0].len + NalOctets(Inline(psets[c], varies, 3)))
    requires frames2 == frames[ranges[c].0 := f]
    requires out2 == out + Inline(psets[c], varies, 3) + Part(nals0, was[c])
    requires now2 == now[c := (|out|, |out2| - |out|)]
    ensures Rewritten(frames0, frames2, nals0, out2, ranges, was, now2, psets, varies, c + 1)
            && Untouched(frames0, frames2, ranges, c + 1)
  {
    hide Fronted, Inline, NalOctets, ChunkDone;
    forall d | 0 <= d < c + 1
      ensures ChunkDone(frames0, frames2, nals0, out2, ranges[d], was[d], now2[d], psets[d], varies)
    {
      if d < c {
        ChunkStays(frames0, frames, frames2, nals0, out, out2, ranges[d], was[d], now[d], psets[d], varies);
      } else {
        NewDone(frames0, frames, frames2, nals0, out, out2, ranges[c], was[c], psets[c], varies, f);
      }
    }
    UntouchedOn(frames0, frames, frames2, ranges, c);
  }

  lemma NewDone(frames0: seq<ByteRange>, frames: seq<ByteRange>, frames2: seq<ByteRange>, nals0: seq<ByteRange>,
                out: seq<ByteRange>, out2: seq<ByteRange>,
                span: (nat, nat), was: (nat, nat), first: seq<ByteRange>, varies: seq<bool>, f: ByteRange)
    requires |first| == |varies| == 3 && span.1 > 0 && span.0 + span.1 <= |frames0| == |frames|
             && was.0 + was.1 <= |nals0|
    requires frames[span.0..] == frames0[span.0..]
    requires f == ByteRange(frames0[span.0].offset + |Inline(first, varies, 3)|,
                            frames0[span.0].len + NalOctets(Inline(first, varies, 3)))
    requires frames2 == frames[span.0 := f]
    requires out2 == out + Inline(first, varies, 3) + Part(nals0, was)
    ensures ChunkDone(frames0, frames2, nals0, out2, span, was, (|out|, |out2| - |out|), first, varies)
  {
    hide Fronted, Inline, NalOctets;
    assert frames[span.0] == frames[span.0..][0] == frames0[span.0];
    FrontedIs(frames, frames2, span, f, Inline(first, varies, 3));
    assert Part(frames, span) == frames[span.0..][..span.1];
    assert Part(frames0, span) == frames0[span.0..][..span.1];
    assert Part(out2, (|out|, |out2| - |out|)) == Inline(first, varies, 3) + Part(nals0, was);
  }

  lemma UntouchedOn(frames0: seq<ByteRange>, frames: seq<ByteRange>, frames2: seq<ByteRange>, ranges: seq<(nat, nat)>,
                    c: nat)
    requires c < |ranges| && FrameSpans(ranges, |frames0|) && Untouched(frames0, frames, ranges, c)
    requires |frames2| == |frames| && forall i :: 0 <= i < |frames| && i != ranges[c].0 ==> frames2[i] == frames[i]
    ensures Untouched(frames0, frames2, ranges, c + 1)
  {
    if c + 1 < |ranges| {
      var a, b := ranges[c].0, ranges[c + 1].0;
      assert a + ranges[c].1 <= b;
      assert forall i :: b <= i < |frames0| ==> frames2[i] == frames[i] == frames[a..][i - a] == frames0[a..][i - a];
    }
  }

  /**
   * Rewrites the lists: each chunk's units become its varying sets followed by what it had, and its
   * first frame counts them. No other frame changes.
   */
  method InlinePsets(arena: array<ByteRange>, nals: seq<ByteRange>, nalRanges: array<(nat, nat)>,
                     ranges: seq<(nat, nat)>,
                     psets: seq<seq<ByteRange>>, varies: seq<bool>) returns (out: seq<ByteRange>)
    requires |varies| == 3 && SetsGiven(psets) && |ranges| == nalRanges.Length == |psets|
    requires FrameSpans(ranges, arena.Length) && NalSpans(nalRanges[..], |nals|)
    modifies arena, nalRanges
    ensures Rewritten(old(arena[..]), arena[..], nals, out, ranges, old(nalRanges[..]), nalRanges[..], psets, varies,
                      |ranges|)
    ensures OnlyFirsts(old(arena[..]), arena[..], ranges, |ranges|)
  {
    hide Inline, NalOctets, ChunkDone;
    ghost var frames0, was := arena[..], nalRanges[..];
    out := [];
    for c := 0 to nalRanges.Length
      invariant Rewritten(frames0, arena[..], nals, out, ranges, was, nalRanges[..], psets, varies, c)
      invariant Untouched(frames0, arena[..], ranges, c) && OnlyFirsts(frames0, arena[..], ranges, c)
    {
      ghost var frames1, now1, out1 := arena[..], nalRanges[..], out;
      var start := |out|;
      var at := ranges[c].0;
      assert arena[at] == frames1[at..][0] == frames0[at];
      var more, f := InlineOne(psets[c], varies, out, arena[at]);
      var span := nalRanges[c];
      arena[at] := f;
      OnlyFirstsOn(frames0, frames1, ranges, c, f);
      out := more + Part(nals, span);
      nalRanges[c] := (start, |out| - start);
      RewrittenOn(frames0, frames1, arena[..], nals, out1, out, ranges, was, now1, nalRanges[..], psets, varies, c, f);
    }
  }

  /** After the pass every frame of every chunk still is a run of its chunk's units with the octets of those units. */
  lemma FramesStillHold(frames0: seq<ByteRange>, frames: seq<ByteRange>, nals0: seq<ByteRange>, out: seq<ByteRange>,
                        ranges: seq<(nat, nat)>,
                        was: seq<(nat, nat)>, now: seq<(nat, nat)>, psets: seq<seq<ByteRange>>, varies: seq<bool>,
                            c: nat, i: nat)
    requires |varies| == 3 && SetsGiven(psets) && |ranges| == |was| == |psets| && c < |ranges|
    requires Rewritten(frames0, frames, nals0, out, ranges, was, now, psets, varies, |ranges|)
    requires ranges[c].0 + ranges[c].1 <= |frames0| && was[c].0 + was[c].1 <= |nals0| && i < ranges[c].1
    requires FrameHolds(Part(frames0, ranges[c]), Part(nals0, was[c]), i)
    ensures ranges[c].0 + ranges[c].1 <= |frames| && now[c].0 + now[c].1 <= |out|
    ensures FrameHolds(Part(frames, ranges[c]), Part(out, now[c]), i)
  {
    hide Inline, NalOctets, FrameHolds;
    assert ChunkDone(frames0, frames, nals0, out, ranges[c], was[c], now[c], psets[c], varies);
    FrontedHolds(Part(frames0, ranges[c]), Part(nals0, was[c]), Inline(psets[c], varies, 3), i);
  }

  /**
   * So a frame that ended with its slice still does; the first one has the chunk's varying sets in front,
   * every other one the units it had.
   */
  lemma SlicesStillLast(frames0: seq<ByteRange>, frames: seq<ByteRange>, nals0: seq<ByteRange>, out: seq<ByteRange>,
                        ranges: seq<(nat, nat)>,
                        was: seq<(nat, nat)>, now: seq<(nat, nat)>, psets: seq<seq<ByteRange>>, varies: seq<bool>,
                        c: nat, codec: Codec, units: seq<Unit>, vary: bool, i: nat, j: nat)
    requires |varies| == 3 && SetsGiven(psets) && |ranges| == |was| == |psets| && c < |ranges|
    requires Rewritten(frames0, frames, nals0, out, ranges, was, now, psets, varies, |ranges|)
    requires ranges[c].0 + ranges[c].1 <= |frames0| && was[c].0 + was[c].1 <= |nals0| && j < |units|
    requires FrameShows(Part(frames0, ranges[c]), Part(nals0, was[c]), codec, units, vary, i, j)
    ensures ranges[c].0 + ranges[c].1 <= |frames| && now[c].0 + now[c].1 <= |out|
    ensures var f, n := Part(frames, ranges[c]), Part(out, now[c]);
            && FrameHolds(f, n, i) && NalStart(f, i) + f[i].offset <= |n| && f[i].offset > 0
            && Run(f, n, i) == (if i == 0 then Inline(psets[c], varies, 3) else [])
                               + Kept(codec, units, vary, AccessStart(codec, units, j), j + 1)
            && Run(f, n, i)[f[i].offset - 1] == RangeOf(units[j])
  {
    hide Inline, NalOctets, FrameHolds, Kept, Fronted;
    FramesStillHold(frames0, frames, nals0, out, ranges, was, now, psets, varies, c, i);
    assert ChunkDone(frames0, frames, nals0, out, ranges[c], was[c], now[c], psets[c], varies);
    RunWithin(Part(frames0, ranges[c]), Part(nals0, was[c]), i);
    FrontedRun(Part(frames0, ranges[c]), Part(nals0, was[c]), Inline(psets[c], varies, 3), i);
  }
}
