/** Putting held-back parameter sets back into the stream, and that every slice sees the sets it saw before. */
module Inlining {
  import opened Bytes
  import opened Ranges
  import opened NalStates
  import opened ParamSets

  datatype Chunk = Chunk(units: seq<Unit>, raw: seq<byte>)

  predicate IsSlice(codec: Codec, units: seq<Unit>, j: nat) { j < |units| && codec(units[j].nal) == Vcl }

  predicate IsSet(codec: Codec, units: seq<Unit>, p: nat, k: nat) { p < |units| && codec(units[p].nal) == Param(k) }

  /** Before any slice, each kind the chunk has sets of has come. */
  ghost predicate SetsLead(units: seq<Unit>, codec: Codec)
  {
    forall j: nat, p: nat, k: nat :: IsSlice(codec, units, j) && IsSet(codec, units, p, k) ==>
        exists q: nat :: q < j && IsSet(codec, units, q, k)
  }

  ghost predicate HasSlice(codec: Codec, units: seq<Unit>) { exists j: nat :: IsSlice(codec, units, j) }

  ghost predicate ChunkOk(c: Chunk, codec: Codec)
  {
    UnitsOk(c.units, codec) && UnitsIn(c.units, c.raw) && SetsLead(c.units, codec) && HasSlice(codec, c.units)
  }

  // ---- a prefix of a chunk

  /** A set of the kind makes it held back; nothing else does, and nothing undoes it. */
  lemma PushFirst(s: State, u: Unit, codec: Codec, k: nat)
    requires Sound(s) && (codec(u.nal).Param? ==> codec(u.nal).k < 3) && k < 3 && |u.nal| > 0
    ensures Push(s, u, codec, true).first[k].len != 0 <==> s.first[k].len != 0 || codec(u.nal) == Param(k)
  {}

  /** A kind has a held-back set exactly when the chunk has had one. */
  lemma {:induction false} HeldIff(s: State, units: seq<Unit>, codec: Codec, k: nat)
    requires Sound(s) && UnitsOk(units, codec) && k < 3
    ensures PushAll(Begin(s, true), units, codec, true).first[k].len != 0 <==>
            exists q: nat :: IsSet(codec, units, q, k)
    decreases units
  {
    hide Push;
    if |units| > 0 {
      var n := |units| - 1;
      HeldIff(s, units[..n], codec, k);
      PushFirst(PushAll(Begin(s, true), units[..n], codec, true), units[n], codec, k);
      SetsBefore(codec, units, n, k);
    }
  }

  lemma SetsBefore(codec: Codec, units: seq<Unit>, n: nat, k: nat)
    requires n + 1 == |units|
    ensures (exists q: nat :: IsSet(codec, units, q, k)) <==>
            (exists q: nat :: IsSet(codec, units[..n], q, k)) || codec(units[n].nal) == Param(k)
  {
    assert forall q: nat :: q < n ==> (IsSet(codec, units[..n], q, k) <==> IsSet(codec, units, q, k));
    if codec(units[n].nal) == Param(k) { assert IsSet(codec, units, n, k); }
  }

  lemma PushHeld(s: State, u: Unit, codec: Codec, k: nat)
    requires Sound(s) && (codec(u.nal).Param? ==> codec(u.nal).k < 3) && k < 3 && s.first[k].len != 0
    ensures Push(s, u, codec, true).first[k] == s.first[k]
  {}

  /** Once held back it stays. */
  lemma {:induction false} HeldStays(s: State, units: seq<Unit>, codec: Codec, j: nat, k: nat)
    requires Sound(s) && UnitsOk(units, codec) && j <= |units| && k < 3
    requires PushAll(s, units[..j], codec, true).first[k].len != 0
    ensures PushAll(s, units, codec, true).first[k] == PushAll(s, units[..j], codec, true).first[k]
    decreases |units| - j
  {
    hide Push;
    if j < |units| {
      assert units[..j + 1][..j] == units[..j];
      PushHeld(PushAll(s, units[..j], codec, true), units[j], codec, k);
      HeldStays(s, units, codec, j + 1, k);
    } else {
      assert units[..j] == units;
    }
  }

  /** The state right after slice `j` of a chunk. */
  function AfterSlice(s: State, units: seq<Unit>, codec: Codec, j: nat): State
    requires Sound(s) && UnitsOk(units, codec) && IsSlice(codec, units, j)
  {
    PushAll(Begin(s, true), units[..j + 1], codec, true)
  }

  /** The frame a slice closes. */
  function FrameIndex(s: State, units: seq<Unit>, codec: Codec, j: nat): nat
    requires Sound(s) && UnitsOk(units, codec) && IsSlice(codec, units, j)
  {
    |PushAll(Begin(s, true), units[..j], codec, true).arena| - |s.arena|
  }

  lemma SliceCloses(s: State, units: seq<Unit>, codec: Codec, j: nat)
    requires Sound(s) && UnitsOk(units, codec) && IsSlice(codec, units, j)
    ensures var b := AfterSlice(s, units, codec, j);
            && b.nal0 == |b.nals| && |b.arena| == |s.arena| + FrameIndex(s, units, codec, j) + 1
               && b.frame0 == |s.arena|
  {
    hide PushAll;
    PushAllSnoc(Begin(s, true), units, codec, j);
    PushAllFrame(Begin(s, true), units, codec, j);
  }

  lemma PushAllSnoc(s: State, units: seq<Unit>, codec: Codec, j: nat)
    requires Sound(s) && UnitsOk(units, codec) && j < |units|
    ensures UnitsOk(units[..j], codec) && UnitsOk(units[..j + 1], codec)
    ensures PushAll(s, units[..j + 1], codec, true) == Push(PushAll(s, units[..j], codec, true), units[j], codec, true)
  {
    assert units[..j + 1][..j] == units[..j];
  }

  lemma {:induction false} PushAllFrame(s: State, units: seq<Unit>, codec: Codec, j: nat)
    requires Sound(s) && UnitsOk(units, codec) && j <= |units|
    ensures |PushAll(s, units[..j], codec, true).arena| >= |s.arena|
    decreases j
  {
    if j > 0 {
      PushAllFrame(s, units, codec, j - 1);
      PushAllSnoc(s, units, codec, j - 1);
    }
  }

  lemma {:induction false} StartOfPrefix(a: seq<ByteRange>, b: seq<ByteRange>, i: nat)
    requires a <= b && i <= |a|
    ensures NalStart(a, i) == NalStart(b, i)
  {
    if i > 0 { StartOfPrefix(a, b, i - 1); }
  }

  /** The frames up to the one slice `j` closes hold exactly the units collected up to there. */
  lemma FramesUpTo(s: State, units: seq<Unit>, codec: Codec, j: nat)
    requires Sound(s) && UnitsOk(units, codec) && IsSlice(codec, units, j)
    ensures var b, t := AfterSlice(s, units, codec, j), PushAll(Begin(s, true), units, codec, true);
            var i := FrameIndex(s, units, codec, j);
            && |s.arena| + i < |t.arena| && |s.nals| <= |b.nals| <= |t.nals|
            && NalStart(t.arena[|s.arena|..], i + 1) == |b.nals| - |s.nals|
            && t.nals[|s.nals|..][..|b.nals| - |s.nals|] == b.nals[|s.nals|..]
  {
    hide PushAll, FrameHolds, NalOctets, NalStart;
    var b, t := AfterSlice(s, units, codec, j), PushAll(Begin(s, true), units, codec, true);
    SliceCloses(s, units, codec, j);
    AllGrows(Begin(s, true), units, codec, true, j + 1);
    FramesAlways(s, units[..j + 1], codec, true);
    StartOfPrefix(b.arena[|s.arena|..], t.arena[|s.arena|..], |b.arena| - |s.arena|);
  }

  // ---- what the muxed stream shows at a slice

  /** Everything of a chunk up to and including frame `i`, as muxed. */
  ghost function MuxedTo(first: seq<ByteRange>, frames: seq<ByteRange>, nals: seq<ByteRange>, raw: seq<byte>,
                         varies: seq<bool>, i: nat): seq<seq<byte>>
    requires |first| == |varies| == 3 && i < |frames| && NalStart(frames, i + 1) <= |nals| && AllIn(nals, raw)
    requires AllIn(Inline(first, varies, 3), raw)
  {
    var more := Inline(first, varies, 3);
    var all := more + nals;
    FrontedStart(frames, more, i + 1);
    Texts(all[..NalStart(Fronted(frames, more), i + 1)], raw)
  }

  lemma MuxedParts(first: seq<ByteRange>, frames: seq<ByteRange>, nals: seq<ByteRange>, raw: seq<byte>,
                   varies: seq<bool>, i: nat)
    requires |first| == |varies| == 3 && i < |frames| && NalStart(frames, i + 1) <= |nals| && AllIn(nals, raw)
    requires AllIn(Inline(first, varies, 3), raw)
    ensures MuxedTo(first, frames, nals, raw, varies, i)
         == Texts(Inline(first, varies, 3), raw) + Texts(nals[..NalStart(frames, i + 1)], raw)
  {
    hide Inline, NalStart, Slice;
    var more := Inline(first, varies, 3);
    FrontedStart(frames, more, i + 1);
    assert (more + nals)[..|more| + NalStart(frames, i + 1)] == more + nals[..NalStart(frames, i + 1)];
  }

  /** The inlined set of kind `k` is the one held back, if the kind varies. */
  lemma {:induction false} InlineSet(first: seq<ByteRange>, varies: seq<bool>, n: nat, raw: seq<byte>, codec: Codec,
                                     k: nat)
    requires |first| == |varies| == 3 && n <= 3 && k < 3
    requires forall m :: 0 <= m < 3 && first[m].len != 0 ==>
             InRange(first[m], raw) && codec(Slice(first[m], raw)) == Param(m)
    ensures AllIn(Inline(first, varies, n), raw)
    ensures SetsOf(codec, Texts(Inline(first, varies, n), raw), k)
         == if k < n && varies[k] && first[k].len != 0 then [Slice(first[k], raw)] else []
  {
    hide Slice, InRange, Texts, SetsOf, AllIn;
    if n > 0 {
      InlineSet(first, varies, n - 1, raw, codec, k);
      var before := Inline(first, varies, n - 1);
      if varies[n - 1] && first[n - 1].len != 0 {
        TextsSnoc(before, first[n - 1], raw);
        SetsSnoc(codec, Texts(before, raw), Slice(first[n - 1], raw), k);
      } else {
        assert before + [] == before;
      }
    } else {
      NothingInline(raw, codec, k);
    }
  }

  lemma NothingInline(raw: seq<byte>, codec: Codec, k: nat)
    ensures AllIn([], raw) && SetsOf(codec, Texts([], raw), k) == []
  {}

  /** What later chunks add to the records and marks of a chunk's end. */
  ghost predicate Final(t: State, rec: seq<seq<byte>>, varies: seq<bool>)
  {
    && Sound(t) && |rec| == |varies| == 3
    && forall k :: 0 <= k < 3 ==> (t.rec[k] != [] ==> rec[k] == t.rec[k]) && (t.varies[k] ==> varies[k])
  }

  ghost predicate AllAre(sets: seq<seq<byte>>, x: seq<byte>) { forall i :: 0 <= i < |sets| ==> sets[i] == x }

  /**
   * In a varying kind the muxed chunk shows what the chunk itself shows; in any other it shows nothing
   * and the chunk only the record.
   */
  ghost predicate SameView(muxed: seq<seq<byte>>, own: seq<seq<byte>>, rec: seq<byte>, varies: bool)
  {
    if varies then muxed == own else muxed == [] && AllAre(own, rec) && (own != [] ==> rec != [])
  }

  /** At slice `j` of a chunk. */
  lemma SliceView(s: State, c: Chunk, codec: Codec, j: nat, k: nat, rec: seq<seq<byte>>, varies: seq<bool>)
    requires Sound(s) && ChunkOk(c, codec) && IsSlice(codec, c.units, j) && k < 3
    requires Final(PushAll(Begin(s, true), c.units, codec, true), rec, varies)
    ensures var t, i := PushAll(Begin(s, true), c.units, codec, true), FrameIndex(s, c.units, codec, j);
            && |s.arena| + i < |t.arena| && |s.nals| <= |t.nals|
            && var frames, nals := t.arena[|s.arena|..], t.nals[|s.nals|..];
               && NalStart(frames, i + 1) <= |nals| && AllIn(nals, c.raw) && AllIn(Inline(t.first, varies, 3), c.raw)
               && SameView(SetsOf(codec, MuxedTo(t.first, frames, nals, c.raw, varies, i), k),
                           SetsOf(codec, Originals(c.units[..j + 1]), k), rec[k], varies[k])
  {
    hide PushAll, NalStart, SetsOf, Slice, InRange, MuxedTo, Inline, AfterSlice;
    var units, raw := c.units, c.raw;
    var b, t := AfterSlice(s, units, codec, j), PushAll(Begin(s, true), units, codec, true);
    var i := FrameIndex(s, units, codec, j);
    FramesUpTo(s, units, codec, j);
    FirstsHold(s, units, raw, codec);
    InlineSet(t.first, varies, 3, raw, codec, k);
    MuxedParts(t.first, t.arena[|s.arena|..], t.nals[|s.nals|..], raw, varies, i);
    PrefixTracked(s, c, codec, j, k);
    var inline := Inline(t.first, varies, 3);
    SetsConcat(codec, Texts(inline, raw), Texts(b.nals[|s.nals|..], raw), k);
  }

  /** Every held-back set is a set of its kind. */
  lemma FirstsHold(s: State, units: seq<Unit>, raw: seq<byte>, codec: Codec)
    requires Sound(s) && UnitsOk(units, codec) && UnitsIn(units, raw)
    ensures var t := PushAll(Begin(s, true), units, codec, true);
            && |s.nals| <= |t.nals| && AllIn(t.nals[|s.nals|..], raw)
            && forall m :: 0 <= m < 3 && t.first[m].len != 0 ==>
               InRange(t.first[m], raw) && codec(Slice(t.first[m], raw)) == Param(m)
  {
    hide PushAll, SetsOf, Slice, InRange;
    var t := PushAll(Begin(s, true), units, codec, true);
    ChunkTracked(s, units, raw, codec, 0);
    forall m | 0 <= m < 3 && t.first[m].len != 0 ensures InRange(t.first[m], raw)
        && codec(Slice(t.first[m], raw)) == Param(m) {
      ChunkTracked(s, units, raw, codec, m);
    }
  }

  /** What the units up to slice `j` show, in terms of the whole chunk's held-back set. */
  lemma PrefixTracked(s: State, c: Chunk, codec: Codec, j: nat, k: nat)
    requires Sound(s) && ChunkOk(c, codec) && IsSlice(codec, c.units, j) && k < 3
    ensures var b, t := AfterSlice(s, c.units, codec, j), PushAll(Begin(s, true), c.units, codec, true);
            && |s.nals| <= |b.nals| && AllIn(b.nals[|s.nals|..], c.raw)
            && (t.first[k].len != 0 ==> FirstHolds(t, c.raw, codec, k))
            && var inline := SetsOf(codec, Texts(b.nals[|s.nals|..], c.raw), k);
               && (inline != [] ==> t.varies[k] && t.first[k].len != 0)
               && SetsOf(codec, Originals(c.units[..j + 1]), k)
                  == (if t.first[k].len != 0 then [Slice(t.first[k], c.raw)] else []) + inline
  {
    hide PushAll, SetsOf, Slice, InRange, FirstHolds, UnitIn;
    var units := c.units;
    var b, t := AfterSlice(s, units, codec, j), PushAll(Begin(s, true), units, codec, true);
    ChunkTracked(s, units[..j + 1], c.raw, codec, k);
    ChunkTracked(s, units, c.raw, codec, k);
    AllGrows(Begin(s, true), units, codec, true, j + 1);
    HeldIff(s, units[..j + 1], codec, k);
    HeldIff(s, units, codec, k);
    if t.first[k].len != 0 {
      var p: nat :| IsSet(codec, units, p, k);
      var q: nat :| q < j && IsSet(codec, units, q, k);
      assert IsSet(codec, units[..j + 1], q, k);
    }
    if b.first[k].len != 0 { HeldStays(Begin(s, true), units, codec, j + 1, k); }
  }

  // ---- whole chunks

  ghost function LastSlice(codec: Codec, units: seq<Unit>): (j: nat)
    requires HasSlice(codec, units)
    ensures IsSlice(codec, units, j) && forall m: nat :: IsSlice(codec, units, m) ==> m <= j
  {
    var n := |units| - 1;
    if IsSlice(codec, units, n) then n
    else
      assert HasSlice(codec, units[..n]) by {
        var j: nat :| IsSlice(codec, units, j);
        assert IsSlice(codec, units[..n], j);
      }
      assert forall m: nat :: m < n ==> (IsSlice(codec, units[..n], m) <==> IsSlice(codec, units, m));
      LastSlice(codec, units[..n])
  }

  lemma NotSlice(s: State, u: Unit, codec: Codec)
    requires Sound(s) && (codec(u.nal).Param? ==> codec(u.nal).k < 3) && codec(u.nal) != Vcl
    ensures |Push(s, u, codec, true).arena| == |s.arena|
  {}

  /** Behind the last slice no frame closes. */
  lemma {:induction false} NoMoreFrames(s: State, units: seq<Unit>, codec: Codec, from: nat)
    requires Sound(s) && UnitsOk(units, codec) && from <= |units| && forall m: nat :: m >= from ==>
             !IsSlice(codec, units, m)
    ensures |PushAll(s, units, codec, true).arena| == |PushAll(s, units[..from], codec, true).arena|
    decreases |units| - from
  {
    hide Push;
    if from < |units| {
      assert units[..from + 1][..from] == units[..from];
      assert !IsSlice(codec, units, from);
      NotSlice(PushAll(s, units[..from], codec, true), units[from], codec);
      NoMoreFrames(s, units, codec, from + 1);
    } else {
      assert units[..from] == units;
    }
  }

  /** The units some slice of the chunk comes after, and that slice. */
  ghost function UsedUnits(codec: Codec, units: seq<Unit>): (u: seq<Unit>)
    requires HasSlice(codec, units)
    ensures u <= units
  {
    units[..LastSlice(codec, units) + 1]
  }

  /** The chunk's frames as muxed, and the units its slices use: same view. */
  lemma ChunkView(s: State, c: Chunk, codec: Codec, k: nat, rec: seq<seq<byte>>, varies: seq<bool>)
    requires Sound(s) && ChunkOk(c, codec) && k < 3 && Final(PushAll(Begin(s, true), c.units, codec, true), rec, varies)
    ensures var t := PushAll(Begin(s, true), c.units, codec, true);
            && |s.arena| < |t.arena| && |s.nals| <= |t.nals|
            && var frames, nals := t.arena[|s.arena|..], t.nals[|s.nals|..];
               && NalStart(frames, |frames|) <= |nals| && AllIn(nals, c.raw) && AllIn(Inline(t.first, varies, 3), c.raw)
               && SameView(SetsOf(codec, MuxedTo(t.first, frames, nals, c.raw, varies, |frames| - 1), k),
                           SetsOf(codec, Originals(UsedUnits(codec, c.units)), k), rec[k], varies[k])
  {
    hide PushAll, NalStart, SetsOf, MuxedTo, Inline, SetsLead, AfterSlice, UnitsIn, SameView;
    var j := LastSlice(codec, c.units);
    SliceView(s, c, codec, j, k, rec, varies);
    SliceCloses(s, c.units, codec, j);
    SliceState(s, c.units, codec, j);
    NoMoreFrames(Begin(s, true), c.units, codec, j + 1);
  }

  lemma SliceState(s: State, units: seq<Unit>, codec: Codec, j: nat)
    requires Sound(s) && UnitsOk(units, codec) && IsSlice(codec, units, j)
    ensures AfterSlice(s, units, codec, j) == PushAll(Begin(s, true), units[..j + 1], codec, true)
  {}
}
