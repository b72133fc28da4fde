/**
 * Whole runs: the muxed stream shows a decoder the parameter sets of the original at every slice, except
 * those that come behind the last slice of a chunk; and without inlining, only the first of each kind.
 */
module SetRuns {
  import opened Bytes
  import opened Ranges
  import opened NalStates
  import opened ParamSets
  import opened Inlining

  // ---- the streams

  const START: State := State([], [], [], [[], [], []], [false, false, false], [NOTHING, NOTHING, NOTHING], 0, 0, 0)

  ghost predicate RunOk(chunks: seq<Chunk>, codec: Codec)
  {
    forall c :: 0 <= c < |chunks| ==> ChunkOk(chunks[c], codec)
  }

  function AfterChunks(chunks: seq<Chunk>, codec: Codec): (s: State)
    requires RunOk(chunks, codec)
    ensures Sound(s)
  {
    if |chunks| == 0 then START
    else
      var n := |chunks| - 1;
      PushAll(Begin(AfterChunks(chunks[..n], codec), true), chunks[n].units, codec, true)
  }

  /** All units of the first `c` chunks. */
  function StreamBefore(chunks: seq<Chunk>, c: nat): seq<seq<byte>>
    requires c <= |chunks|
  {
    if c == 0 then [] else StreamBefore(chunks, c - 1) + Originals(chunks[c - 1].units)
  }

  /** The same without the units behind each chunk's last slice. */
  ghost function UsedBefore(chunks: seq<Chunk>, codec: Codec, c: nat): seq<seq<byte>>
    requires RunOk(chunks, codec) && c <= |chunks|
  {
    if c == 0 then [] else UsedBefore(chunks, codec, c - 1) + Originals(UsedUnits(codec, chunks[c - 1].units))
  }

  /** Chunk `c` as muxed, up to and including frame `i`. */
  ghost function ChunkTo(chunks: seq<Chunk>, codec: Codec, c: nat, varies: seq<bool>, i: nat): seq<seq<byte>>
    requires RunOk(chunks, codec) && c < |chunks| && |varies| == 3
  {
    var s := AfterChunks(chunks[..c], codec);
    var t := AfterChunks(chunks[..c + 1], codec);
    if |s.arena| <= |t.arena| && |s.nals| <= |t.nals| then
      var frames, nals, raw := t.arena[|s.arena|..], t.nals[|s.nals|..], chunks[c].raw;
      if i < |frames| && NalStart(frames, i + 1) <= |nals| && AllIn(nals, raw) && AllIn(Inline(t.first, varies, 3), raw)
      then MuxedTo(t.first, frames, nals, raw, varies, i)
      else []
    else []
  }

  ghost function FrameCount(chunks: seq<Chunk>, codec: Codec, c: nat): int
    requires RunOk(chunks, codec) && c < |chunks|
  {
    |AfterChunks(chunks[..c + 1], codec).arena| - |AfterChunks(chunks[..c], codec).arena|
  }

  /** The first `c` chunks as muxed: all frames of each. */
  ghost function MuxedBefore(chunks: seq<Chunk>, codec: Codec, c: nat, varies: seq<bool>): seq<seq<byte>>
    requires RunOk(chunks, codec) && c <= |chunks| && |varies| == 3
  {
    if c == 0 then []
    else
      var n := FrameCount(chunks, codec, c - 1);
      MuxedBefore(chunks, codec, c - 1, varies) + if n > 0 then ChunkTo(chunks, codec, c - 1, varies, n - 1) else []
  }

  lemma ViewsJoin(m1: seq<seq<byte>>, o1: seq<seq<byte>>, m2: seq<seq<byte>>, o2: seq<seq<byte>>, rec: seq<byte>,
                  varies: bool)
    requires SameView(m1, o1, rec, varies) && SameView(m2, o2, rec, varies)
    ensures SameView(m1 + m2, o1 + o2, rec, varies)
  {}

  lemma ChunkStep(chunks: seq<Chunk>, codec: Codec, c: nat)
    requires RunOk(chunks, codec) && c < |chunks|
    ensures RunOk(chunks[..c], codec) && RunOk(chunks[..c + 1], codec) && ChunkOk(chunks[c], codec)
    ensures AfterChunks(chunks[..c + 1], codec) == PushAll(Begin(AfterChunks(chunks[..c], codec), true),
                                                           chunks[c].units, codec, true)
  {
    hide ChunkOk;
    assert chunks[..c + 1][..c] == chunks[..c];
  }

  lemma {:induction false} RunFinal(chunks: seq<Chunk>, codec: Codec, c: nat)
    requires RunOk(chunks, codec) && c <= |chunks|
    ensures var f := AfterChunks(chunks, codec); Final(AfterChunks(chunks[..c], codec), f.rec, f.varies)
    decreases |chunks| - c
  {
    hide SetsLead, UnitsIn, UnitsOk, HasSlice, PushAll;
    if c < |chunks| {
      RunFinal(chunks, codec, c + 1);
      ChunkStep(chunks, codec, c);
      var s := AfterChunks(chunks[..c], codec);
      AllGrows(Begin(s, true), chunks[c].units, codec, true, 0);
      NoneYet(Begin(s, true), chunks[c].units, codec);
    } else {
      assert chunks[..c] == chunks;
    }
  }

  lemma NoneYet(s: State, units: seq<Unit>, codec: Codec)
    requires Sound(s) && UnitsOk(units, codec)
    ensures PushAll(s, units[..0], codec, true) == s
  {}

  lemma {:induction false} BeforeView(chunks: seq<Chunk>, codec: Codec, c: nat, k: nat)
    requires RunOk(chunks, codec) && c <= |chunks| && k < 3
    ensures var f := AfterChunks(chunks, codec);
            SameView(SetsOf(codec, MuxedBefore(chunks, codec, c, f.varies), k),
                     SetsOf(codec, UsedBefore(chunks, codec, c), k), f.rec[k], f.varies[k])
    decreases c
  {
    hide ChunkOk, PushAll, UsedUnits, MuxedTo, Inline, NalStart, AfterChunks;
    if c > 0 {
      hide SameView, SetsOf;
      BeforeView(chunks, codec, c - 1, k);
      WholeView(chunks, codec, c - 1, k);
      var f := AfterChunks(chunks, codec);
      var n := FrameCount(chunks, codec, c - 1);
      ChunkUnits(chunks[c - 1], codec);
      var own, muxed := Originals(UsedUnits(codec, chunks[c - 1].units)),
          ChunkTo(chunks, codec, c - 1, f.varies, n - 1);
      SetsConcat(codec, UsedBefore(chunks, codec, c - 1), own, k);
      SetsConcat(codec, MuxedBefore(chunks, codec, c - 1, f.varies), muxed, k);
      ViewsJoin(SetsOf(codec, MuxedBefore(chunks, codec, c - 1, f.varies), k),
                SetsOf(codec, UsedBefore(chunks, codec, c - 1), k),
                SetsOf(codec, muxed, k), SetsOf(codec, own, k), f.rec[k], f.varies[k]);
    }
  }

  lemma WholeView(chunks: seq<Chunk>, codec: Codec, c: nat, k: nat)
    requires RunOk(chunks, codec) && c < |chunks| && k < 3
    ensures FrameCount(chunks, codec, c) > 0
    ensures var f := AfterChunks(chunks, codec);
            SameView(SetsOf(codec, ChunkTo(chunks, codec, c, f.varies, FrameCount(chunks, codec, c) - 1), k),
                     SetsOf(codec, Originals(UsedUnits(codec, chunks[c].units)), k), f.rec[k], f.varies[k])
  {
    hide ChunkOk, PushAll, UsedUnits, MuxedTo, Inline, NalStart, AfterChunks, SameView, SetsOf;
    ChunkStep(chunks, codec, c);
    RunFinal(chunks, codec, c + 1);
    var f := AfterChunks(chunks, codec);
    ChunkView(AfterChunks(chunks[..c], codec), chunks[c], codec, k, f.rec, f.varies);
  }

  // ---- the record

  function First(sets: seq<seq<byte>>): seq<byte> { if sets == [] then [] else sets[0] }

  /** A set held back has been recorded, or an earlier one. */
  predicate Recorded(s: State, vary: bool, k: nat)
    requires Sound(s) && k < 3
  {
    vary && s.first[k].len != 0 ==> s.rec[k] != []
  }

  /** The record of kind `k` is the first set of the kind in the stream so far. */
  lemma {:induction false} RecordIsFirst(s: State, units: seq<Unit>, codec: Codec, vary: bool, k: nat,
                                         before: seq<seq<byte>>)
    requires Sound(s) && UnitsOk(units, codec) && k < 3 && s.rec[k] == First(SetsOf(codec, before, k))
             && Recorded(s, vary, k)
    requires forall i :: 0 <= i < |SetsOf(codec, before, k)| ==> SetsOf(codec, before, k)[i] != []
    ensures var all := SetsOf(codec, before + Originals(units), k);
            && PushAll(s, units, codec, vary).rec[k] == First(all) && Recorded(PushAll(s, units, codec, vary), vary, k)
            && forall i :: 0 <= i < |all| ==> all[i] != []
    decreases units
  {
    hide SetsOf, Originals, Push;
    if |units| == 0 {
      assert units == [] && before + Originals(units) == before;
    } else {
      var n := |units| - 1;
      RecordIsFirst(s, units[..n], codec, vary, k, before);
      assert units == units[..n] + [units[n]];
      OriginalsSnoc(units[..n], units[n]);
      assert before + Originals(units) == (before + Originals(units[..n])) + [units[n].nal];
      SetsSnoc(codec, before + Originals(units[..n]), units[n].nal, k);
      PushRecord(PushAll(s, units[..n], codec, vary), units[n], codec, vary, k);
    }
  }

  lemma PushRecord(s: State, u: Unit, codec: Codec, vary: bool, k: nat)
    requires Sound(s) && (codec(u.nal).Param? ==> codec(u.nal).k < 3) && k < 3 && |u.nal| > 0
    requires Recorded(s, vary, k)
    ensures Recorded(Push(s, u, codec, vary), vary, k)
    ensures Push(s, u, codec, vary).rec[k] == if codec(u.nal) == Param(k) && s.rec[k] == [] then u.nal else s.rec[k]
  {}

  /** So at the start of chunk `c`, and at the end. */
  lemma {:induction false} RecordBefore(chunks: seq<Chunk>, codec: Codec, c: nat, k: nat)
    requires RunOk(chunks, codec) && c <= |chunks| && k < 3
    ensures var sets := SetsOf(codec, StreamBefore(chunks, c), k);
            && RunOk(chunks[..c], codec) && AfterChunks(chunks[..c], codec).rec[k] == First(sets)
            && forall i :: 0 <= i < |sets| ==> sets[i] != []
    decreases c
  {
    hide ChunkOk, PushAll, Originals;
    if c > 0 {
      RecordBefore(chunks, codec, c - 1, k);
      ChunkStep(chunks, codec, c - 1);
      ChunkUnits(chunks[c - 1], codec);
      RecordIsFirst(Begin(AfterChunks(chunks[..c - 1], codec), true), chunks[c - 1].units, codec, true, k,
                    StreamBefore(chunks, c - 1));
    } else {
      assert chunks[..0] == [];
    }
  }

  lemma ChunkUnits(c: Chunk, codec: Codec)
    requires ChunkOk(c, codec)
    ensures UnitsOk(c.units, codec) && UnitsIn(c.units, c.raw) && HasSlice(codec, c.units)
  {
    hide UnitsOk, UnitsIn, HasSlice, SetsLead;
  }

  // ---- used and unused sets

  lemma {:induction false} SetsPrefix(codec: Codec, units: seq<Unit>, n: nat, k: nat)
    requires n <= |units|
    ensures SetsOf(codec, Originals(units[..n]), k) <= SetsOf(codec, Originals(units), k)
    decreases |units| - n
  {
    hide SetsOf;
    if n < |units| {
      SetsPrefix(codec, units, n + 1, k);
      assert units[..n + 1] == units[..n] + [units[n]];
      OriginalsSnoc(units[..n], units[n]);
      SetsSnoc(codec, Originals(units[..n]), units[n].nal, k);
    } else {
      assert units[..n] == units;
    }
  }

  lemma {:induction false} SetListed(codec: Codec, units: seq<Unit>, k: nat)
    ensures SetsOf(codec, Originals(units), k) != [] <==> exists q: nat :: IsSet(codec, units, q, k)
  {
    if |units| > 0 {
      var n := |units| - 1;
      SetListed(codec, units[..n], k);
      assert units == units[..n] + [units[n]];
      OriginalsSnoc(units[..n], units[n]);
      SetsSnoc(codec, Originals(units[..n]), units[n].nal, k);
      assert forall q: nat :: q < n ==> (IsSet(codec, units[..n], q, k) <==> IsSet(codec, units, q, k));
      if codec(units[n].nal) == Param(k) { assert IsSet(codec, units, n, k); }
    }
  }

  /** Both empty, or with the same in front. */
  predicate SameFirst(a: seq<seq<byte>>, b: seq<seq<byte>>) { if a == [] then b == [] else b != [] && a[0] == b[0] }

  lemma FirstsJoin(a: seq<seq<byte>>, b: seq<seq<byte>>, c: seq<seq<byte>>, d: seq<seq<byte>>)
    requires SameFirst(a, b) && SameFirst(c, d)
    ensures SameFirst(a + c, b + d)
  {}

  /** The units used keep the chunk's first set of each kind. */
  lemma UsedFirst(c: Chunk, codec: Codec, k: nat)
    requires ChunkOk(c, codec)
    ensures HasSlice(codec, c.units)
    ensures var used, all := SetsOf(codec, Originals(UsedUnits(codec, c.units)), k),
            SetsOf(codec, Originals(c.units), k);
            SameFirst(used, all)
  {
    hide SetsOf, Originals, UnitsIn, UnitsOk;
    var n := LastSlice(codec, c.units) + 1;
    SetsPrefix(codec, c.units, n, k);
    SetListed(codec, c.units, k);
    SetListed(codec, c.units[..n], k);
    if exists q: nat :: IsSet(codec, c.units, q, k) {
      var p: nat :| IsSet(codec, c.units, p, k);
      var q: nat :| q < n - 1 && IsSet(codec, c.units, q, k);
      assert IsSet(codec, c.units[..n], q, k);
    }
  }

  /** Leaving out unused sets leaves the first of each kind. */
  lemma {:induction false} FirstUsed(chunks: seq<Chunk>, codec: Codec, c: nat, k: nat)
    requires RunOk(chunks, codec) && c <= |chunks|
    ensures var used, all := SetsOf(codec, UsedBefore(chunks, codec, c), k), SetsOf(codec, StreamBefore(chunks, c), k);
            SameFirst(used, all)
    decreases c
  {
    hide SetsOf, Originals, ChunkOk, UsedUnits;
    if c > 0 {
      FirstUsed(chunks, codec, c - 1, k);
      UsedFirst(chunks[c - 1], codec, k);
      SetsConcat(codec, UsedBefore(chunks, codec, c - 1), Originals(UsedUnits(codec, chunks[c - 1].units)), k);
      SetsConcat(codec, StreamBefore(chunks, c - 1), Originals(chunks[c - 1].units), k);
      FirstsJoin(SetsOf(codec, UsedBefore(chunks, codec, c - 1), k), SetsOf(codec, StreamBefore(chunks, c - 1), k),
                 SetsOf(codec, Originals(UsedUnits(codec, chunks[c - 1].units)), k),
                     SetsOf(codec, Originals(chunks[c - 1].units), k));
    }
  }

  // ---- what is active at a slice

  /** The sets of kind `k` in the Annex B stream up to slice `j` of chunk `c`. */
  ghost function Seen(chunks: seq<Chunk>, codec: Codec, c: nat, j: nat, k: nat): seq<seq<byte>>
    requires c < |chunks| && j < |chunks[c].units|
  {
    SetsOf(codec, StreamBefore(chunks, c) + Originals(chunks[c].units[..j + 1]), k)
  }

  /** Those among them that do not come behind the last slice of an earlier chunk. */
  ghost function SeenUsed(chunks: seq<Chunk>, codec: Codec, c: nat, j: nat, k: nat): seq<seq<byte>>
    requires RunOk(chunks, codec) && c < |chunks| && j < |chunks[c].units|
  {
    SetsOf(codec, UsedBefore(chunks, codec, c) + Originals(chunks[c].units[..j + 1]), k)
  }

  function Record(rec: seq<byte>): seq<seq<byte>> { if rec != [] then [rec] else [] }

  /** What a decoder of the muxed stream has seen there: the record, then the sets in the stream. */
  ghost function SeenMuxed(chunks: seq<Chunk>, codec: Codec, c: nat, j: nat, k: nat): seq<seq<byte>>
    requires RunOk(chunks, codec) && c < |chunks| && IsSlice(codec, chunks[c].units, j) && k < 3
  {
    var f := AfterChunks(chunks, codec);
    ChunkStep(chunks, codec, c);
    ChunkUnits(chunks[c], codec);
    var i := FrameIndex(AfterChunks(chunks[..c], codec), chunks[c].units, codec, j);
    Record(f.rec[k]) + SetsOf(codec, MuxedBefore(chunks, codec, c, f.varies) + ChunkTo(chunks, codec, c, f.varies, i),
                              k)
  }

  /** The muxed stream up to a slice against the sets used up to it. */
  lemma SliceViews(chunks: seq<Chunk>, codec: Codec, c: nat, j: nat, k: nat)
    requires RunOk(chunks, codec) && c < |chunks| && IsSlice(codec, chunks[c].units, j) && k < 3
    ensures var f := AfterChunks(chunks, codec);
            |f.rec| == |f.varies| == 3
            && exists inBand :: SeenMuxed(chunks, codec, c, j, k) == Record(f.rec[k]) + inBand
                                && SameView(inBand, SeenUsed(chunks, codec, c, j, k), f.rec[k], f.varies[k])
  {
    hide PushAll, MuxedTo, Inline, NalStart, AfterChunks, SetsOf, SetsLead, UnitsIn, UnitsOk, MuxedBefore, UsedBefore,
        SameView;
    ChunkStep(chunks, codec, c);
    RunFinal(chunks, codec, c + 1);
    var f := AfterChunks(chunks, codec);
    var s := AfterChunks(chunks[..c], codec);
    var i := FrameIndex(s, chunks[c].units, codec, j);
    SliceView(s, chunks[c], codec, j, k, f.rec, f.varies);
    BeforeView(chunks, codec, c, k);
    var own, muxed := Originals(chunks[c].units[..j + 1]), ChunkTo(chunks, codec, c, f.varies, i);
    SetsConcat(codec, UsedBefore(chunks, codec, c), own, k);
    SetsConcat(codec, MuxedBefore(chunks, codec, c, f.varies), muxed, k);
    ViewsJoin(SetsOf(codec, MuxedBefore(chunks, codec, c, f.varies), k), SetsOf(codec, UsedBefore(chunks, codec, c), k),
              SetsOf(codec, muxed, k), SetsOf(codec, own, k), f.rec[k], f.varies[k]);
    var inBand := SetsOf(codec, MuxedBefore(chunks, codec, c, f.varies) + muxed, k);
    assert SeenMuxed(chunks, codec, c, j, k) == Record(f.rec[k]) + inBand;
  }

  /** The record is the first of the sets used up to a slice, if there is any up to there. */
  lemma RecordUsed(chunks: seq<Chunk>, codec: Codec, c: nat, j: nat, k: nat)
    requires RunOk(chunks, codec) && c < |chunks| && IsSlice(codec, chunks[c].units, j) && k < 3
    ensures var f, all, used := AfterChunks(chunks, codec), Seen(chunks, codec, c, j, k),
            SeenUsed(chunks, codec, c, j, k);
            && |f.rec| == 3 && (all != [] ==> used != [] && f.rec[k] == used[0] == all[0] && f.rec[k] != [])
  {
    hide SetsOf, Originals, ChunkOk, UsedUnits, PushAll;
    FirstUsed(chunks, codec, c, k);
    var own := Originals(chunks[c].units[..j + 1]);
    SetsConcat(codec, UsedBefore(chunks, codec, c), own, k);
    SetsConcat(codec, StreamBefore(chunks, c), own, k);
    FirstsJoin(SetsOf(codec, UsedBefore(chunks, codec, c), k), SetsOf(codec, StreamBefore(chunks, c), k),
               SetsOf(codec, own, k), SetsOf(codec, own, k));
    RecordBefore(chunks, codec, |chunks|, k);
    assert chunks[..|chunks|] == chunks;
    SeenFirst(chunks, codec, c, j, k);
  }

  lemma {:induction false} StreamFirst(chunks: seq<Chunk>, codec: Codec, c: nat, d: nat, k: nat)
    requires c <= d <= |chunks|
    ensures SetsOf(codec, StreamBefore(chunks, c), k) <= SetsOf(codec, StreamBefore(chunks, d), k)
    decreases d
  {
    hide SetsOf, Originals;
    if c < d {
      StreamFirst(chunks, codec, c, d - 1, k);
      SetsConcat(codec, StreamBefore(chunks, d - 1), Originals(chunks[d - 1].units), k);
    }
  }

  /** What was seen up to a slice starts the whole stream's sets. */
  lemma SeenFirst(chunks: seq<Chunk>, codec: Codec, c: nat, j: nat, k: nat)
    requires c < |chunks| && j < |chunks[c].units|
    ensures Seen(chunks, codec, c, j, k) <= SetsOf(codec, StreamBefore(chunks, |chunks|), k)
  {
    hide SetsOf, Originals;
    StreamFirst(chunks, codec, c + 1, |chunks|, k);
    SetsConcat(codec, StreamBefore(chunks, c), Originals(chunks[c].units), k);
    SetsConcat(codec, StreamBefore(chunks, c), Originals(chunks[c].units[..j + 1]), k);
    SetsPrefix(codec, chunks[c].units, j + 1, k);
  }

  lemma {:induction false} ActiveAll(sets: seq<seq<byte>>, x: seq<byte>, ident: Ident, id: nat)
    requires AllAre(sets, x) && sets != []
    ensures Active(sets, ident, id) == Active([x], ident, id)
  {
    var n := |sets| - 1;
    if n > 0 && ident(x) != id { ActiveAll(sets[..n], x, ident, id); }
    assert [x][..0] == [] && sets[..0] == [];
  }

  /**
   * At every slice, once the stream has had a set of the kind, the muxed stream has under every
   * identifier the octets active that the stream without unused sets has.
   */
  lemma UsedPreserved(chunks: seq<Chunk>, codec: Codec, c: nat, j: nat, k: nat, ident: Ident, id: nat)
    requires RunOk(chunks, codec) && c < |chunks| && IsSlice(codec, chunks[c].units, j) && k < 3
    requires Seen(chunks, codec, c, j, k) != []
    ensures Active(SeenMuxed(chunks, codec, c, j, k), ident, id) == Active(SeenUsed(chunks, codec, c, j, k), ident, id)
  {
    hide SeenMuxed, Seen, SeenUsed, Active, AfterChunks, ChunkOk;
    var f, used := AfterChunks(chunks, codec), SeenUsed(chunks, codec, c, j, k);
    SliceViews(chunks, codec, c, j, k);
    RecordUsed(chunks, codec, c, j, k);
    var inBand :| SeenMuxed(chunks, codec, c, j, k) == Record(f.rec[k]) + inBand
        && SameView(inBand, used, f.rec[k], f.varies[k]);
    ActiveConcat([f.rec[k]], inBand, ident, id);
    FirstShown(used, ident, id);
    if !f.varies[k] {
      ActiveAll(used, f.rec[k], ident, id);
      assert [f.rec[k]] + [] == [f.rec[k]];
    }
  }

  /** Adding its own first set in front changes nothing. */
  lemma FirstShown(sets: seq<seq<byte>>, ident: Ident, id: nat)
    requires sets != []
    ensures OrElse(Active(sets, ident, id), Active([sets[0]], ident, id)) == Active(sets, ident, id)
  {
    var one: seq<seq<byte>> := [sets[0]];
    assert one[..0] == [];
    if ident(sets[0]) == id { ActiveIn(sets, ident, id, 0); }
  }

  lemma {:induction false} SomeSeen(sets: seq<seq<byte>>, ident: Ident, id: nat)
    requires Active(sets, ident, id).Some?
    ensures sets != []
  {}

  /**
   * Wherever the Annex B stream has a parameter set active at a slice, the muxed stream has the same
   * octets active if and only if leaving out the sets behind the last slices of earlier chunks does not
   * change what is active.
   */
  lemma SetsPreserved(chunks: seq<Chunk>, codec: Codec, c: nat, j: nat, k: nat, ident: Ident, id: nat)
    requires RunOk(chunks, codec) && c < |chunks| && IsSlice(codec, chunks[c].units, j) && k < 3
    requires Active(Seen(chunks, codec, c, j, k), ident, id).Some?
    ensures Active(SeenMuxed(chunks, codec, c, j, k), ident, id) == Active(Seen(chunks, codec, c, j, k), ident, id)
       <==> Active(SeenUsed(chunks, codec, c, j, k), ident, id) == Active(Seen(chunks, codec, c, j, k), ident, id)
  {
    hide SeenMuxed, Seen, SeenUsed, Active, ChunkOk;
    SomeSeen(Seen(chunks, codec, c, j, k), ident, id);
    UsedPreserved(chunks, codec, c, j, k, ident, id);
  }

  // ---- no unused sets

  /** Every set of the chunk is followed by a slice of it. */
  ghost predicate SetsUsed(units: seq<Unit>, codec: Codec)
  {
    forall p: nat, k: nat :: IsSet(codec, units, p, k) ==> exists j: nat :: p < j && IsSlice(codec, units, j)
  }

  /** Units without sets of kind `k` change nothing. */
  lemma {:induction false} NoMoreSets(units: seq<Unit>, codec: Codec, from: nat, k: nat)
    requires from <= |units| && forall p: nat :: p >= from ==> !IsSet(codec, units, p, k)
    ensures SetsOf(codec, Originals(units), k) == SetsOf(codec, Originals(units[..from]), k)
    decreases |units| - from
  {
    hide SetsOf;
    if from < |units| {
      NoMoreSets(units, codec, from + 1, k);
      assert units[..from + 1] == units[..from] + [units[from]];
      OriginalsSnoc(units[..from], units[from]);
      SetsSnoc(codec, Originals(units[..from]), units[from].nal, k);
      assert !IsSet(codec, units, from, k);
    } else {
      assert units[..from] == units;
    }
  }

  lemma SetBeforeLast(units: seq<Unit>, codec: Codec, p: nat, k: nat)
    requires SetsUsed(units, codec) && HasSlice(codec, units) && IsSet(codec, units, p, k)
    ensures p < LastSlice(codec, units)
  {
    var m: nat :| p < m && IsSlice(codec, units, m);
  }

  lemma {:induction false} UsedIsAll(chunks: seq<Chunk>, codec: Codec, c: nat, k: nat)
    requires RunOk(chunks, codec) && c <= |chunks| && forall d :: 0 <= d < c ==> SetsUsed(chunks[d].units, codec)
    ensures SetsOf(codec, UsedBefore(chunks, codec, c), k) == SetsOf(codec, StreamBefore(chunks, c), k)
    decreases c
  {
    hide SetsOf, Originals, ChunkOk;
    if c > 0 {
      UsedIsAll(chunks, codec, c - 1, k);
      ChunkUnits(chunks[c - 1], codec);
      var units := chunks[c - 1].units;
      forall p: nat | p >= LastSlice(codec, units) + 1 ensures !IsSet(codec, units, p, k) {
        if IsSet(codec, units, p, k) { SetBeforeLast(units, codec, p, k); }
      }
      NoMoreSets(units, codec, LastSlice(codec, units) + 1, k);
      SetsConcat(codec, UsedBefore(chunks, codec, c - 1), Originals(UsedUnits(codec, units)), k);
      SetsConcat(codec, StreamBefore(chunks, c - 1), Originals(units), k);
    }
  }

  /** So without unused sets everything active stays active. */
  lemma AllPreserved(chunks: seq<Chunk>, codec: Codec, c: nat, j: nat, k: nat, ident: Ident, id: nat)
    requires RunOk(chunks, codec) && c < |chunks| && IsSlice(codec, chunks[c].units, j) && k < 3
    requires forall d :: 0 <= d < c ==> SetsUsed(chunks[d].units, codec)
    requires Active(Seen(chunks, codec, c, j, k), ident, id).Some?
    ensures Active(SeenMuxed(chunks, codec, c, j, k), ident, id) == Active(Seen(chunks, codec, c, j, k), ident, id)
  {
    hide SetsOf, Originals, ChunkOk, Active, SeenMuxed;
    SetsPreserved(chunks, codec, c, j, k, ident, id);
    UsedIsAll(chunks, codec, c, k);
    var own := Originals(chunks[c].units[..j + 1]);
    SetsConcat(codec, UsedBefore(chunks, codec, c), own, k);
    SetsConcat(codec, StreamBefore(chunks, c), own, k);
  }

  /**
   * For example a second set behind the only slice of a chunk, and a chunk without sets: the first set
   * stays active there.
   */
  lemma UnusedLost(a: seq<byte>, b: seq<byte>, x: seq<byte>, codec: Codec)
    requires |a| > 0 && |b| > 0 && |x| > 0 && a != b && codec(a) == codec(b) == Param(0) && codec(x) == Vcl
    ensures var units0 := [Unit(a, 0, None), Unit(x, |a|, None), Unit(b, |a| + |x|, None)];
            var chunks := [Chunk(units0, a + x + b), Chunk([Unit(x, 0, None)], x)];
            var ident: Ident := _ => 0;
            && RunOk(chunks, codec) && IsSlice(codec, chunks[1].units, 0)
            && Active(Seen(chunks, codec, 1, 0, 0), ident, 0) == Some(b)
            && Active(SeenMuxed(chunks, codec, 1, 0, 0), ident, 0) == Some(a)
  {
    hide SeenMuxed;
    var u0, u1, u2 := Unit(a, 0, None), Unit(x, |a|, None), Unit(b, |a| + |x|, None);
    var units0 := [u0, u1, u2];
    var chunks := [Chunk(units0, a + x + b), Chunk([Unit(x, 0, None)], x)];
    var ident: Ident := _ => 0;
    UnusedRun(a, b, x, codec);
    UnusedSeen(a, b, x, codec);
    UsedPreserved(chunks, codec, 1, 0, 0, ident, 0);
    var one: seq<seq<byte>> := [a];
    assert one[..0] == [];
  }

  lemma UnusedRun(a: seq<byte>, b: seq<byte>, x: seq<byte>, codec: Codec)
    requires |a| > 0 && |b| > 0 && |x| > 0 && codec(a) == codec(b) == Param(0) && codec(x) == Vcl
    ensures ChunkOk(Chunk([Unit(a, 0, None), Unit(x, |a|, None), Unit(b, |a| + |x|, None)], a + x + b), codec)
    ensures ChunkOk(Chunk([Unit(x, 0, None)], x), codec)
  {
    var c0, c1 := Chunk([Unit(a, 0, None), Unit(x, |a|, None), Unit(b, |a| + |x|, None)], a + x + b),
        Chunk([Unit(x, 0, None)], x);
    assert IsSlice(codec, c0.units, 1) && IsSlice(codec, c1.units, 0) && IsSet(codec, c0.units, 0, 0);
    var raw := a + x + b;
    assert raw[0..|a|] == a && raw[|a|..|a| + |x|] == x && raw[|a| + |x|..|a| + |x| + |b|] == b;
    assert x[0..|x|] == x;
  }

  /** What has been seen at the second chunk's slice, and what of it is used. */
  lemma UnusedSeen(a: seq<byte>, b: seq<byte>, x: seq<byte>, codec: Codec)
    requires |a| > 0 && |b| > 0 && |x| > 0 && codec(a) == codec(b) == Param(0) && codec(x) == Vcl
    ensures var units0 := [Unit(a, 0, None), Unit(x, |a|, None), Unit(b, |a| + |x|, None)];
            var chunks := [Chunk(units0, a + x + b), Chunk([Unit(x, 0, None)], x)];
            && RunOk(chunks, codec) && Seen(chunks, codec, 1, 0, 0) == [a, b] && SeenUsed(chunks, codec, 1, 0, 0) == [a]
  {
    hide ChunkOk, SetsOf;
    UnusedRun(a, b, x, codec);
    var units0 := [Unit(a, 0, None), Unit(x, |a|, None), Unit(b, |a| + |x|, None)];
    var units1 := [Unit(x, 0, None)];
    var chunks := [Chunk(units0, a + x + b), Chunk(units1, x)];
    ChunkUnits(chunks[0], codec);
    assert LastSlice(codec, units0) == 1 by {
      assert IsSlice(codec, units0, 1) && !IsSlice(codec, units0, 2);
    }
    assert Originals(units1[..1]) == [x] && Originals(units0) == [a, x, b]
           && Originals(UsedUnits(codec, units0)) == [a, x];
    assert StreamBefore(chunks, 1) == StreamBefore(chunks, 0) + [a, x, b] == [a, x, b];
    assert UsedBefore(chunks, codec, 1) == UsedBefore(chunks, codec, 0) + [a, x] == [a, x];
    assert [a, x, b] + [x] == (([] + [a]) + [x] + [b]) + [x] && [a, x] + [x] == ([] + [a]) + [x] + [x];
    assert SetsOf(codec, [], 0) == [] by { ShowNone(codec); }
    SetsSnoc(codec, [], a, 0);
    SetsSnoc(codec, [] + [a], x, 0);
    SetsSnoc(codec, [] + [a] + [x], b, 0);
    SetsSnoc(codec, [] + [a] + [x] + [b], x, 0);
    SetsSnoc(codec, [] + [a] + [x], x, 0);
  }

  lemma ShowNone(codec: Codec)
    ensures SetsOf(codec, [], 0) == []
  {}

  // ---- without inlining

  ghost predicate PlainOk(chunks: seq<Chunk>, codec: Codec)
  {
    forall c :: 0 <= c < |chunks| ==> UnitsOk(chunks[c].units, codec) && UnitsIn(chunks[c].units, chunks[c].raw)
  }

  function AfterPlain(chunks: seq<Chunk>, codec: Codec): (s: State)
    requires PlainOk(chunks, codec)
    ensures Sound(s)
  {
    if |chunks| == 0 then START
    else
      var n := |chunks| - 1;
      PushAll(Begin(AfterPlain(chunks[..n], codec), false), chunks[n].units, codec, false)
  }

  /** No set is kept in the stream. */
  lemma {:induction false} PlainKept(s: State, units: seq<Unit>, raw: seq<byte>, codec: Codec, k: nat)
    requires Sound(s) && UnitsOk(units, codec) && UnitsIn(units, raw)
    ensures var t := PushAll(Begin(s, false), units, codec, false);
            && |s.nals| <= |t.nals| && AllIn(t.nals[|s.nals|..], raw)
            && SetsOf(codec, Texts(t.nals[|s.nals|..], raw), k) == []
    decreases units
  {
    hide Slice, InRange;
    if |units| > 0 {
      hide SetsOf;
      var n := |units| - 1;
      PlainKept(s, units[..n], raw, codec, k);
      var p, t := PushAll(Begin(s, false), units[..n], codec, false), PushAll(Begin(s, false), units, codec, false);
      var kept := p.nals[|s.nals|..];
      assert UnitIn(units[n], raw);
      if t.nals == p.nals + [RangeOf(units[n])] {
        assert t.nals[|s.nals|..] == kept + [RangeOf(units[n])];
        TextsSnoc(kept, RangeOf(units[n]), raw);
        SetsSnoc(codec, Texts(kept, raw), units[n].nal, k);
      }
    } else {
      assert s.nals[|s.nals|..] == [];
    }
  }

  /** The units of chunk `c` kept in the stream, of its first `n`. */
  ghost function KeptTo(chunks: seq<Chunk>, codec: Codec, c: nat, n: nat): seq<seq<byte>>
    requires PlainOk(chunks, codec) && c < |chunks| && n <= |chunks[c].units|
  {
    var s := AfterPlain(chunks[..c], codec);
    var units := chunks[c].units[..n];
    PlainKept(s, units, chunks[c].raw, codec, 0);
    Texts(PushAll(Begin(s, false), units, codec, false).nals[|s.nals|..], chunks[c].raw)
  }

  ghost function KeptBefore(chunks: seq<Chunk>, codec: Codec, c: nat): seq<seq<byte>>
    requires PlainOk(chunks, codec) && c <= |chunks|
  {
    if c == 0 then [] else KeptBefore(chunks, codec, c - 1) + KeptTo(chunks, codec, c - 1, |chunks[c - 1].units|)
  }

  lemma KeptToNone(chunks: seq<Chunk>, codec: Codec, c: nat, n: nat, k: nat)
    requires PlainOk(chunks, codec) && c < |chunks| && n <= |chunks[c].units|
    ensures SetsOf(codec, KeptTo(chunks, codec, c, n), k) == []
  {
    hide SetsOf, Texts, PushAll;
    PlainKept(AfterPlain(chunks[..c], codec), chunks[c].units[..n], chunks[c].raw, codec, k);
  }

  lemma {:induction false} NoneKept(chunks: seq<Chunk>, codec: Codec, c: nat, k: nat)
    requires PlainOk(chunks, codec) && c <= |chunks|
    ensures SetsOf(codec, KeptBefore(chunks, codec, c), k) == []
    decreases c
  {
    if c > 0 {
      hide SetsOf, KeptTo, PlainOk;
      var n := |chunks[c - 1].units|;
      NoneKept(chunks, codec, c - 1, k);
      KeptToNone(chunks, codec, c - 1, n, k);
      SetsConcat(codec, KeptBefore(chunks, codec, c - 1), KeptTo(chunks, codec, c - 1, n), k);
    }
  }

  lemma {:induction false} PlainRecord(chunks: seq<Chunk>, codec: Codec, c: nat, k: nat)
    requires PlainOk(chunks, codec) && c <= |chunks| && k < 3
    ensures var sets := SetsOf(codec, StreamBefore(chunks, c), k);
            && AfterPlain(chunks[..c], codec).rec[k] == First(sets) && forall i :: 0 <= i < |sets| ==> sets[i] != []
    decreases c
  {
    hide PushAll, Originals, UnitsOk, UnitsIn;
    if c > 0 {
      PlainRecord(chunks, codec, c - 1, k);
      assert chunks[..c][..c - 1] == chunks[..c - 1];
      RecordIsFirst(Begin(AfterPlain(chunks[..c - 1], codec), false), chunks[c - 1].units, codec, false, k,
                    StreamBefore(chunks, c - 1));
    } else {
      assert chunks[..0] == [];
    }
  }

  /** What a decoder of the stream muxed without inlining has seen at slice `j` of chunk `c`. */
  ghost function SeenPlain(chunks: seq<Chunk>, codec: Codec, c: nat, j: nat, k: nat): seq<seq<byte>>
    requires PlainOk(chunks, codec) && c < |chunks| && j < |chunks[c].units| && k < 3
  {
    Record(AfterPlain(chunks, codec).rec[k]) + SetsOf(codec,
                                                      KeptBefore(chunks, codec, c) + KeptTo(chunks, codec, c, j + 1), k)
  }

  /** Without inlining what is active at a slice is kept if and only if it is the stream's first set of the kind. */
  lemma PlainPreserved(chunks: seq<Chunk>, codec: Codec, c: nat, j: nat, k: nat, ident: Ident, id: nat)
    requires PlainOk(chunks, codec) && c < |chunks| && j < |chunks[c].units| && k < 3
    requires Active(Seen(chunks, codec, c, j, k), ident, id).Some?
    ensures SetsOf(codec, StreamBefore(chunks, |chunks|), k) != []
    ensures Active(SeenPlain(chunks, codec, c, j, k), ident, id) == Active(Seen(chunks, codec, c, j, k), ident, id)
       <==> Active(Seen(chunks, codec, c, j, k), ident, id) == Some(SetsOf(codec, StreamBefore(chunks, |chunks|), k)[0])
  {
    hide SetsOf, Texts, PushAll, Seen, PlainOk, AfterPlain;
    var seen, all := Seen(chunks, codec, c, j, k), SetsOf(codec, StreamBefore(chunks, |chunks|), k);
    SomeSeen(seen, ident, id);
    SeenFirst(chunks, codec, c, j, k);
    PlainRecord(chunks, codec, |chunks|, k);
    assert chunks[..|chunks|] == chunks;
    NoneKept(chunks, codec, c, k);
    KeptToNone(chunks, codec, c, j + 1, k);
    SetsConcat(codec, KeptBefore(chunks, codec, c), KeptTo(chunks, codec, c, j + 1), k);
    assert SeenPlain(chunks, codec, c, j, k) == [all[0]];
    OneActive(all[0], ident, id);
    ActiveHas(seen, ident, id);
  }

  lemma OneActive(x: seq<byte>, ident: Ident, id: nat)
    ensures Active([x], ident, id) == if ident(x) == id then Some(x) else None
  {
    assert [x][..0] == [];
  }

  /** What is active has the identifier. */
  lemma {:induction false} ActiveHas(sets: seq<seq<byte>>, ident: Ident, id: nat)
    ensures Active(sets, ident, id).Some? ==> ident(Active(sets, ident, id).value) == id
  {
    if |sets| > 0 { ActiveHas(sets[..|sets| - 1], ident, id); }
  }
}
