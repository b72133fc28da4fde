/**
 * What every frame of a chunk holds, from the chunk's units alone: whatever comes with its slice, and
 * the slice last.
 */
module FrameContents {
  import opened Bytes
  import opened Ranges
  import opened NalStates
  import opened ParamSets
  import opened Inlining

  /**
   * The units that stay in the stream: every slice and every prefix unit; with varying sets, every set
   * behind the chunk's first of its kind.
   */
  ghost predicate Stays(codec: Codec, units: seq<Unit>, j: nat, vary: bool)
    requires j < |units|
  {
    || codec(units[j].nal) == Vcl
    || codec(units[j].nal) == Prefix
    || (vary && exists q: nat, k: nat :: q < j && IsSet(codec, units, q, k) && IsSet(codec, units, j, k))
  }

  /** Where those of units `lo` to `hi` are, in order. */
  ghost function Kept(codec: Codec, units: seq<Unit>, vary: bool, lo: nat, hi: nat): seq<ByteRange>
    requires lo <= hi <= |units|
  {
    if lo == hi then []
    else Kept(codec, units, vary, lo, hi - 1) + if Stays(codec, units, hi - 1, vary) then [RangeOf(units[hi - 1])]
        else []
  }

  /** Behind the last slice before unit `j`, or at the chunk's start. */
  function AccessStart(codec: Codec, units: seq<Unit>, j: nat): (a: nat)
    requires j <= |units|
    ensures a <= j && (a > 0 ==> IsSlice(codec, units, a - 1))
    ensures forall m: nat :: a <= m < j ==> !IsSlice(codec, units, m)
  {
    if j == 0 || codec(units[j - 1].nal) == Vcl then j else AccessStart(codec, units, j - 1)
  }

  function SlicesBefore(codec: Codec, units: seq<Unit>, j: nat): nat
    requires j <= |units|
  {
    if j == 0 then 0 else SlicesBefore(codec, units, j - 1) + if codec(units[j - 1].nal) == Vcl then 1 else 0
  }

  /** The units of frame `i`. */
  function Run(frames: seq<ByteRange>, nals: seq<ByteRange>, i: nat): seq<ByteRange>
    requires i < |frames| && NalStart(frames, i) + frames[i].offset <= |nals|
  {
    nals[NalStart(frames, i)..NalStart(frames, i) + frames[i].offset]
  }

  /** The number a slice is displayed under before ranking: its count if it has one, else its place. */
  function DisplayOf(u: Unit,
                     place: nat): nat { match u.poc case Some(p) => p % U32_LIMIT case None => place % U32_LIMIT }

  /** Frame `i` of a chunk is the kept units behind the slice before, up to and including slice `j`. */
  ghost predicate FrameShows(frames: seq<ByteRange>, nals: seq<ByteRange>, codec: Codec, units: seq<Unit>, vary: bool,
                             i: nat, j: nat)
    requires j < |units|
  {
    && i < |frames| && FrameHolds(frames, nals, i) && frames[i].offset > 0
    && Run(frames, nals, i) == Kept(codec, units, vary, AccessStart(codec, units, j), j + 1)
    && Run(frames, nals, i)[frames[i].offset - 1] == RangeOf(units[j])
  }

  /** From `s` to `t` a chunk of these units has come: one frame for each slice, holding what comes with it. */
  ghost predicate FramesShow(s: State, t: State, codec: Codec, units: seq<Unit>, vary: bool)
  {
    && s.arena <= t.arena && |t.arena| == |s.arena| + SlicesBefore(codec, units, |units|)
    && t.nals == s.nals + Kept(codec, units, vary, 0, |units|)
    && forall j: nat :: IsSlice(codec, units, j) ==>
        FrameShows(t.arena[|s.arena|..], t.nals[|s.nals|..], codec, units, vary, SlicesBefore(codec, units, j), j)
  }

  // ---- the parts of Kept

  lemma {:induction false} KeptSplit(codec: Codec, units: seq<Unit>, vary: bool, lo: nat, mid: nat, hi: nat)
    requires lo <= mid <= hi <= |units|
    ensures Kept(codec, units, vary, lo, hi) == Kept(codec, units, vary, lo, mid) + Kept(codec, units, vary, mid, hi)
  {
    hide Stays;
    if mid < hi { KeptSplit(codec, units, vary, lo, mid, hi - 1); }
  }

  // ---- the state after some of the units

  /** A set goes inline exactly when the chunk's first of its kind is held back already. */
  lemma StaysIff(s: State, units: seq<Unit>, codec: Codec, n: nat, k: nat)
    requires Sound(s) && UnitsOk(units, codec) && n < |units| && codec(units[n].nal) == Param(k)
    ensures PushAll(Begin(s, true), units[..n], codec, true).first[k].len != 0 <==> Stays(codec, units, n, true)
  {
    hide PushAll;
    HeldIff(s, units[..n], codec, k);
    assert IsSet(codec, units, n, k);
    assert forall q: nat :: q < n ==> (IsSet(codec, units[..n], q, k) <==> IsSet(codec, units, q, k));
  }

  /** The state after the first `n` units. */
  function After(s: State, units: seq<Unit>, codec: Codec, vary: bool, n: nat): (t: State)
    requires Sound(s) && UnitsOk(units, codec) && n <= |units|
    ensures Sound(t) && t.frame0 == |s.arena|
  {
    PushAll(Begin(s, vary), units[..n], codec, vary)
  }

  lemma AfterNext(s: State, units: seq<Unit>, codec: Codec, vary: bool, n: nat)
    requires Sound(s) && UnitsOk(units, codec) && n < |units|
    ensures After(s, units, codec, vary, n + 1) == Push(After(s, units, codec, vary, n), units[n], codec, vary)
  {
    hide Push;
    assert units[..n + 1][..n] == units[..n];
  }

  /** One more unit. */
  lemma PushKept(s: State, units: seq<Unit>, codec: Codec, vary: bool, n: nat)
    requires Sound(s) && UnitsOk(units, codec) && n < |units|
    ensures var a, b := After(s, units, codec, vary, n), After(s, units, codec, vary, n + 1);
            && b.nals == a.nals + (if Stays(codec, units, n, vary) then [RangeOf(units[n])] else [])
            && (if codec(units[n].nal) == Vcl
                then b.nal0 == |b.nals| && b.displays == a.displays + [DisplayOf(units[n], |a.arena| - |s.arena|)]
                     && b.arena[..|b.arena| - 1] == a.arena && |b.arena| == |a.arena| + 1
                     && b.arena[|a.arena|].offset == |b.nals| - a.nal0
                else b.nal0 == a.nal0 && b.arena == a.arena && b.displays == a.displays)
  {
    hide PushAll, Stays;
    AfterNext(s, units, codec, vary, n);
    match codec(units[n].nal)
    case Param(k) =>
      if vary { StaysIff(s, units, codec, n, k); } else { PlainStays(codec, units, n); }
    case _ => KindStays(codec, units, n, vary);
  }

  lemma PlainStays(codec: Codec, units: seq<Unit>, n: nat)
    requires n < |units| && codec(units[n].nal).Param?
    ensures !Stays(codec, units, n, false)
  {}

  lemma KindStays(codec: Codec, units: seq<Unit>, n: nat, vary: bool)
    requires n < |units| && !codec(units[n].nal).Param?
    ensures Stays(codec, units, n, vary) <==> codec(units[n].nal) != Drop
  {}

  lemma {:induction false} AfterSome(s: State, units: seq<Unit>, codec: Codec, vary: bool, n: nat)
    requires Sound(s) && UnitsOk(units, codec) && n <= |units|
    ensures var t := After(s, units, codec, vary, n);
            && t.nals == s.nals + Kept(codec, units, vary, 0, n)
            && t.nal0 == |s.nals| + |Kept(codec, units, vary, 0, AccessStart(codec, units, n))|
            && |t.arena| == |s.arena| + SlicesBefore(codec, units, n)
  {
    hide PushAll, Stays, After;
    if n > 0 {
      AfterSome(s, units, codec, vary, n - 1);
      PushKept(s, units, codec, vary, n - 1);
    } else {
      AfterNone(s, units, codec, vary);
    }
  }

  lemma AfterNone(s: State, units: seq<Unit>, codec: Codec, vary: bool)
    requires Sound(s) && UnitsOk(units, codec)
    ensures After(s, units, codec, vary, 0) == Begin(s, vary)
  {}

  // ---- the frames

  /** The units a slice comes with end with it. */
  lemma OwnLast(codec: Codec, units: seq<Unit>, vary: bool, start: nat, j: nat)
    requires IsSlice(codec, units, j) && start <= j
    ensures var own := Kept(codec, units, vary, start, j + 1);
            |own| > 0 && own[|own| - 1] == RangeOf(units[j])
  {
    hide Stays;
    KindStays(codec, units, j, vary);
    assert Kept(codec, units, vary, start, j + 1) == Kept(codec, units, vary, start, j) + [RangeOf(units[j])];
  }

  lemma RunIs(frames: seq<ByteRange>, before: seq<ByteRange>, own: seq<ByteRange>, i: nat)
    requires i < |frames| && NalStart(frames, i) == |before| && frames[i].offset == |own|
    ensures NalStart(frames, i) + frames[i].offset <= |before + own| && Run(frames, before + own, i) == own
  {
    hide NalStart;
    assert (before + own)[|before|..|before| + |own|] == own;
  }

  /** A last frame that begins where the units behind the slice before do. */
  lemma OwnFrame(frames: seq<ByteRange>, codec: Codec, units: seq<Unit>, vary: bool, i: nat, j: nat)
    requires IsSlice(codec, units, j) && i < |frames|
    requires var all, before := Kept(codec, units, vary, 0, j + 1),
             Kept(codec, units, vary, 0, AccessStart(codec, units, j));
             && FrameHolds(frames, all, i) && NalStart(frames, i) == |before|
             && frames[i].offset == |all| - |before|
    ensures FrameShows(frames, Kept(codec, units, vary, 0, j + 1), codec, units, vary, i, j)
  {
    hide *;
    SliceWithin(codec, units, j);
    var start := AccessStart(codec, units, j);
    KeptSplit(codec, units, vary, 0, start, j + 1);
    OwnLast(codec, units, vary, start, j);
    RunIs(frames, Kept(codec, units, vary, 0, start), Kept(codec, units, vary, start, j + 1), i);
    RunWithin(frames, Kept(codec, units, vary, 0, j + 1), i);
    ShowsIs(frames, Kept(codec, units, vary, 0, j + 1), codec, units, vary, i, j);
  }

  lemma SliceWithin(codec: Codec, units: seq<Unit>, j: nat)
    requires IsSlice(codec, units, j)
    ensures j < |units|
  {}

  lemma ShowsIs(frames: seq<ByteRange>, nals: seq<ByteRange>, codec: Codec, units: seq<Unit>, vary: bool, i: nat,
                j: nat)
    requires j < |units| && i < |frames| && FrameHolds(frames, nals, i)
    requires NalStart(frames, i) + frames[i].offset <= |nals|
    requires var own := Kept(codec, units, vary, AccessStart(codec, units, j), j + 1);
             |own| > 0 && own[|own| - 1] == RangeOf(units[j]) && Run(frames, nals, i) == own
                 && frames[i].offset == |own|
    ensures FrameShows(frames, nals, codec, units, vary, i, j)
  {
    hide FrameHolds, Run, Kept, AccessStart, NalStart, RangeOf;
  }

  lemma RunWithin(frames: seq<ByteRange>, nals: seq<ByteRange>, i: nat)
    requires i < |frames| && FrameHolds(frames, nals, i)
    ensures NalStart(frames, i) + frames[i].offset <= |nals|
  {}

  /** The frame a slice closes, in the state it leaves. */
  lemma SliceClosesOwn(s: State, units: seq<Unit>, codec: Codec, vary: bool, j: nat)
    requires Sound(s) && UnitsOk(units, codec) && IsSlice(codec, units, j)
    ensures var b := After(s, units, codec, vary, j + 1);
            && |s.arena| <= |b.arena| && |s.nals| <= |b.nals|
            && FrameShows(b.arena[|s.arena|..], b.nals[|s.nals|..], codec, units, vary, SlicesBefore(codec, units, j),
                          j)
  {
    hide PushAll, Stays, After, FrameHolds, NalOctets, FrameShows, Kept, AccessStart;
    var a, b := After(s, units, codec, vary, j), After(s, units, codec, vary, j + 1);
    AfterSome(s, units, codec, vary, j);
    AfterSome(s, units, codec, vary, j + 1);
    PushKept(s, units, codec, vary, j);
    FramesSoFar(s, units, codec, vary, j + 1);
    FramesSoFar(s, units, codec, vary, j);
    var frames := b.arena[|s.arena|..];
    StartOfPrefix(a.arena[|s.arena|..], frames, |a.arena| - |s.arena|);
    assert b.nals[|s.nals|..] == Kept(codec, units, vary, 0, j + 1);
    OwnFrame(frames, codec, units, vary, SlicesBefore(codec, units, j), j);
  }

  lemma FramesSoFar(s: State, units: seq<Unit>, codec: Codec, vary: bool, n: nat)
    requires Sound(s) && UnitsOk(units, codec) && n <= |units|
    ensures var b := After(s, units, codec, vary, n);
            && |s.arena| <= |b.arena| && |s.nals| <= b.nal0 && Sound(b)
            && NalStart(b.arena[|s.arena|..], |b.arena| - |s.arena|) == b.nal0 - |s.nals|
            && forall i :: 0 <= i < |b.arena| - |s.arena| ==>
                FrameHolds(b.arena[|s.arena|..], b.nals[|s.nals|..], i)
  {
    hide FrameHolds, NalOctets, NalStart, PushAll;
    FramesAlways(s, units[..n], codec, vary);
  }

  lemma ShowsMore(frames: seq<ByteRange>, nals: seq<ByteRange>, frames2: seq<ByteRange>, nals2: seq<ByteRange>,
                  codec: Codec, units: seq<Unit>, vary: bool, i: nat, j: nat)
    requires j < |units| && FrameShows(frames, nals, codec, units, vary, i, j) && frames <= frames2 && nals <= nals2
    ensures FrameShows(frames2, nals2, codec, units, vary, i, j)
  {
    hide Kept, NalStart, NalOctets, AccessStart;
    StartOfPrefix(frames, frames2, i);
    assert nals2[NalStart(frames2, i)..NalStart(frames2, i) + frames2[i].offset] == Run(frames, nals, i);
  }

  /**
   * Whatever the chunk, what it adds to the stream is, in order, its slices, its prefix units and the sets
   * not held back, and every slice has a frame that ends with it and begins behind the slice before.
   */
  lemma ChunkShows(s: State, units: seq<Unit>, codec: Codec, vary: bool)
    requires Sound(s) && UnitsOk(units, codec)
    ensures FramesShow(s, PushAll(Begin(s, vary), units, codec, vary), codec, units, vary)
  {
    hide PushAll, Stays, Kept, FrameShows;
    var t := PushAll(Begin(s, vary), units, codec, vary);
    assert units[..|units|] == units;
    AfterSome(s, units, codec, vary, |units|);
    AllGrows(Begin(s, vary), units, codec, vary, 0);
    AfterNone(s, units, codec, vary);
    forall j: nat | IsSlice(codec, units, j)
      ensures FrameShows(t.arena[|s.arena|..], t.nals[|s.nals|..], codec, units, vary, SlicesBefore(codec, units, j), j)
    {
      SliceClosesOwn(s, units, codec, vary, j);
      AllGrows(Begin(s, vary), units, codec, vary, j + 1);
      var b := After(s, units, codec, vary, j + 1);
      ShowsMore(b.arena[|s.arena|..], b.nals[|s.nals|..], t.arena[|s.arena|..], t.nals[|s.nals|..], codec, units, vary,
                SlicesBefore(codec, units, j), j);
    }
  }

  /** A slice without a count is displayed at its place in the chunk. */
  lemma SliceDisplay(s: State, units: seq<Unit>, codec: Codec, vary: bool, j: nat)
    requires Sound(s) && UnitsOk(units, codec) && IsSlice(codec, units, j)
    ensures var i, t := |s.arena| + SlicesBefore(codec, units, j), PushAll(Begin(s, vary), units, codec, vary);
            i < |t.displays| && t.displays[i] == DisplayOf(units[j], SlicesBefore(codec, units, j))
  {
    hide PushAll, Stays, Kept;
    AfterSome(s, units, codec, vary, j);
    PushKept(s, units, codec, vary, j);
    AllGrows(Begin(s, vary), units, codec, vary, j + 1);
  }

  // ---- with the varying sets in front

  /** Putting sets in front of a chunk's first frame changes no other frame's units, and that one's not at the end. */
  lemma FrontedRun(frames: seq<ByteRange>, nals: seq<ByteRange>, more: seq<ByteRange>, i: nat)
    requires i < |frames| && NalStart(frames, i) + frames[i].offset <= |nals|
    ensures var f := Fronted(frames, more);
            && NalStart(f, i) + f[i].offset <= |more| + |nals|
            && Run(f, more + nals, i) == (if i == 0 then more else []) + Run(frames, nals, i)
  {
    hide NalOctets, NalStart;
    FrontedStart(frames, more, i);
    StartZero(frames);
    StartZero(Fronted(frames, more));
    var start := NalStart(frames, i);
    if i == 0 {
      assert (more + nals)[..|more| + frames[0].offset] == more + nals[..frames[0].offset];
    } else {
      assert (more + nals)[|more| + start..|more| + start + frames[i].offset] == nals[start..start + frames[i].offset];
    }
  }
}
