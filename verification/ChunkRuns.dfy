/**
 * One encoded chunk from its octets on: units are found, counts read from slice headers, frames
 * collected and ranked.
 */
module ChunkRuns {
  import opened Bytes
  import opened Ranges
  import opened Rbsp
  import opened BitReaders
  import opened AnnexB
  import opened Pocs
  import opened SliceHeaders
  import opened NalKinds
  import opened NalStates
  import opened NalEmit
  import opened Inlining
  import opened FrameContents
  import opened Ranks

  // ---- counts

  datatype Head = Of264(h4: Head264) | Of265(h5: Head265) | Of266(h6: Head266)

  /** The slice's header is that of the picture: its low bits, whether it restarts and whether it is referred to. */
  ghost predicate Codes(p: Coding, nal: seq<byte>, h: Head, pic: Picture)
  {
    && |nal| >= HeaderLen(p)
    && match p
       case H264(log2FrameNum, log2) =>
         && h.Of264? && Holds264(nal, h.h4, log2FrameNum, log2)
         && (if nal[0] % 32 == 5 then pic == Restart(0)
             else pic == Coded(pic.poc, IsReference264(nal[0])) && h.h4.lsb == Lsb(pic.poc, log2))
       case H265(sets) =>
         var t := Type265(nal);
         && h.Of265? && h.h5.first && Holds265(nal, h.h5, t, sets)
         && (if IsIdr(t) then pic == Restart(0)
             else (if IsRestart(t) then pic == Restart(pic.poc)
                   else pic == Coded(pic.poc, IsReference265(t, TemporalId(nal))))
                  && h.h5.lsb == Lsb(pic.poc, sets.log2Poc))
       case H266(log2) =>
         var t := Type266(nal);
         && h.Of266? && h.h6.inSlice && Holds266(nal, h.h6, log2) && h.h6.lsb == Lsb(pic.poc, log2)
         && (if IsRestart266(t) then pic == Restart(pic.poc)
             else pic == Coded(pic.poc, IsReference266(t, TemporalId(nal), h.h6.nonRef)))
  }

  /** The count of one slice, and the reference for the next. */
  method SliceCount(poc: Poc, p: Coding, nal: seq<byte>, ghost h: Head, ghost pic: Picture) returns (count: Option<int>)
    requires CodingOk(p) && Codes(p, nal, h, pic) && poc.Valid(Log2(p))
    modifies poc
    ensures poc.Valid(Log2(p)) && count == Some(Result(old(poc.Prev()), pic, Log2(p)))
    ensures poc.Prev() == Follow(old(poc.Prev()), pic, Result(old(poc.Prev()), pic, Log2(p)))
  {
    hide Holds264, Holds265, Holds266, Poc.Valid, Closest, Lsb, IsReference264, IsReference265, IsReference266, Pow2;
    NoBits(Log2(p));
    match p
    case H264(log2FrameNum, log2) =>
      var n := SlicePoc264(poc, nal, log2FrameNum, log2, h.h4);
      count := Some(n);
    case H265(sets) => count := SlicePoc265(poc, nal, Type265(nal), TemporalId(nal), sets, h.h5);
    case H266(log2) => count := SlicePoc266(poc, nal, Type266(nal), TemporalId(nal), log2, h.h6);
  }

  lemma NoBits(log2: nat)
    ensures Lsb(0, log2) == 0
  {
    hide Pow2;
    LsbFacts(0, log2);
  }

  // ---- the chunk

  /** Extents lie in the stream, and none is empty. */
  lemma {:induction false} UnitsWithin(raw: seq<byte>, pos: nat)
    requires pos <= |raw| && (pos >= 1 || pos == |raw|)
    ensures forall i :: 0 <= i < |Units(raw, pos)| ==> InRange(Units(raw, pos)[i], raw) && Units(raw, pos)[i].len > 0
    decreases |raw| - pos
  {
    hide NextStart;
    var sc := NextStart(raw, pos);
    if sc.Some? { UnitsWithin(raw, sc.value + 3); }
  }

  /** Where the chunk's units are. */
  function ChunkExtents(raw: seq<byte>): (extents: seq<ByteRange>)
    ensures forall i :: 0 <= i < |extents| ==> InRange(extents[i], raw) && extents[i].len > 0
  {
    UnitsWithin(raw, FirstNal(raw));
    Units(raw, FirstNal(raw))
  }

  /** The slices among some extents. */
  function Slices(p: Coding, raw: seq<byte>, extents: seq<ByteRange>): (s: seq<seq<byte>>)
    requires forall i :: 0 <= i < |extents| ==> InRange(extents[i], raw)
    ensures |s| <= |extents|
  {
    if |extents| == 0 then []
    else
      var n := |extents| - 1;
      var nal := Slice(extents[n], raw);
      Slices(p, raw, extents[..n]) + if KindOf(p, nal) == Vcl then [nal] else []
  }

  lemma {:induction false} SlicesMore(p: Coding, raw: seq<byte>, extents: seq<ByteRange>, n: nat)
    requires (forall i :: 0 <= i < |extents| ==> InRange(extents[i], raw)) && n <= |extents|
    ensures Slices(p, raw, extents[..n]) <= Slices(p, raw, extents)
    ensures n < |extents| && KindOf(p, Slice(extents[n], raw)) == Vcl ==>
      var m := |Slices(p, raw, extents[..n])|;
      m < |Slices(p, raw, extents)| && Slices(p, raw, extents)[m] == Slice(extents[n], raw)
    decreases |extents| - n
  {
    hide Slice, KindOf;
    if n < |extents| {
      SlicesMore(p, raw, extents, n + 1);
      assert extents[..n + 1][..n] == extents[..n];
    } else {
      assert extents[..n] == extents;
    }
  }

  lemma SlicesStep(p: Coding, raw: seq<byte>, extents: seq<ByteRange>, i: nat)
    requires (forall j :: 0 <= j < |extents| ==> InRange(extents[j], raw)) && i < |extents|
    ensures var s, n := Slices(p, raw, extents), |Slices(p, raw, extents[..i])|;
            if KindOf(p, Slice(extents[i], raw)) == Vcl
            then n < |s| && s[n] == Slice(extents[i], raw) && |Slices(p, raw, extents[..i + 1])| == n + 1
            else n <= |s| && |Slices(p, raw, extents[..i + 1])| == n
  {
    hide Slice, KindOf;
    SlicesMore(p, raw, extents, i);
    assert extents[..i + 1][..i] == extents[..i];
  }

  /** The slices, in order, code the pictures. */
  ghost predicate Encoded(p: Coding, slices: seq<seq<byte>>, heads: seq<Head>, pics: seq<Picture>)
  {
    |slices| == |heads| == |pics| && forall i :: 0 <= i < |slices| ==> Codes(p, slices[i], heads[i], pics[i])
  }

  ghost predicate UnitsAt(units: seq<Unit>, extents: seq<ByteRange>, raw: seq<byte>)
  {
    |units| == |extents| && forall i :: 0 <= i < |units| ==>
        RangeOf(units[i]) == extents[i] && InRange(extents[i], raw) && units[i].nal == Slice(extents[i], raw)
  }

  /** A slice adds its key to the display numbers; nothing else adds any. */
  lemma PushDisplays(s: State, u: Unit, codec: Codec, vary: bool, keys: seq<nat>)
    requires Sound(s) && (codec(u.nal).Param? ==> codec(u.nal).k < 3) && s.displays[s.frame0..] == keys
    requires codec(u.nal) == Vcl ==> u.poc.Some?
    ensures var t := Push(s, u, codec, vary);
            t.displays[t.frame0..] == if codec(u.nal) == Vcl then keys + [Key(u.poc.value)] else keys
  {}

  lemma KeysSnoc(pocs: seq<int>, x: int)
    ensures Keys(pocs + [x]) == Keys(pocs) + [Key(x)]
  {}

  lemma PushOneMore(s: State, units: seq<Unit>, u: Unit, codec: Codec, vary: bool)
    requires Sound(s) && UnitsOk(units, codec) && |u.nal| > 0 && (codec(u.nal).Param? ==> codec(u.nal).k < 3)
    ensures UnitsOk(units + [u], codec)
    ensures PushAll(s, units + [u], codec, vary) == Push(PushAll(s, units, codec, vary), u, codec, vary)
  {
    hide Push;
    assert (units + [u])[..|units|] == units;
  }

  /** Where the run is after `i` extents. */
  ghost predicate Underway(s: State, now: State, poc: int, p: Coding, raw: seq<byte>, extents: seq<ByteRange>,
                           pics: seq<Picture>,
                           units: seq<Unit>, vary: bool, i: nat)
  {
    && i <= |extents| && (forall j :: 0 <= j < |extents| ==> InRange(extents[j], raw))
    && Sound(s) && UnitsOk(units, CodecOf(p)) && UnitsAt(units, extents[..i], raw)
    && now == PushAll(s, units, CodecOf(p), vary)
    && var n := |Slices(p, raw, extents[..i])|;
       n <= |pics| && now.frame0 <= |now.displays|
           && now.displays[now.frame0..] == Keys(Recovered(0, pics[..n], Log2(p)))
       && poc == LastReference(0, pics[..n], Log2(p))
  }

  lemma UnderwayOn(s: State, now: State, poc: int, p: Coding, raw: seq<byte>, extents: seq<ByteRange>,
                   pics: seq<Picture>,
                   units: seq<Unit>, vary: bool, i: nat, u: Unit, now2: State, poc2: int)
    requires Underway(s, now, poc, p, raw, extents, pics, units, vary, i) && i < |extents| && |u.nal| > 0
    requires RangeOf(u) == extents[i] && u.nal == Slice(extents[i], raw)
    requires |Slices(p, raw, extents)| == |pics|
    requires now2 == Push(now, u, CodecOf(p), vary)
    requires var n := |Slices(p, raw, extents[..i])|;
             if KindOf(p, u.nal) == Vcl && n < |pics|
             then u.poc == Some(Result(poc, pics[n], Log2(p)))
                 && poc2 == Follow(poc, pics[n], Result(poc, pics[n], Log2(p)))
             else poc2 == poc
    ensures Underway(s, now2, poc2, p, raw, extents, pics, units + [u], vary, i + 1)
  {
    hide Push, PushAll, Recovered, LastReference, Result, Follow, Slice, KindOf, UnitsOk, Keys, Sound, Slices;
    var n := |Slices(p, raw, extents[..i])|;
    SlicesStep(p, raw, extents, i);
    assert extents[..i + 1] == extents[..i] + [extents[i]];
    NowSound(s, units, CodecOf(p), vary);
    assert CodecOf(p)(u.nal) == KindOf(p, u.nal);
    KindParam(p, u.nal);
    PushOneMore(s, units, u, CodecOf(p), vary);
    PushDisplays(now, u, CodecOf(p), vary, Keys(Recovered(0, pics[..n], Log2(p))));
    NowSound(s, units + [u], CodecOf(p), vary);
    if KindOf(p, u.nal) == Vcl {
      assert pics[..n + 1] == pics[..n] + [pics[n]];
      RecoveredSnoc(0, pics[..n], pics[n], Log2(p));
      KeysSnoc(Recovered(0, pics[..n], Log2(p)), u.poc.value);
    }
  }

  lemma KindParam(p: Coding, nal: seq<byte>)
    ensures KindOf(p, nal).Param? ==> KindOf(p, nal).k < 3
  {}

  lemma NowSound(s: State, units: seq<Unit>, codec: Codec, vary: bool)
    requires Sound(s) && UnitsOk(units, codec)
    ensures var t := PushAll(s, units, codec, vary); Sound(t) && t.frame0 == s.frame0 && t.frame0 <= |t.displays|
  {}

  /** The chunk's display numbers become ranks. */
  method RankFrames(e: Emit) returns (ghost order: seq<nat>, ghost ranks: seq<nat>)
    requires Sound(e.Now())
    modifies e
    ensures Ranked(old(e.displays[e.frame0..]), order, ranks)
    ensures e.Now() == old(e.Now()).(displays := old(e.displays[..e.frame0]) + ranks)
  {
    var all := e.displays;
    var disp := new nat[|all|](i requires 0 <= i < |all| => all[i]);
    assert disp[..] == all;
    assert disp[e.frame0..] == all[e.frame0..] && disp[..e.frame0] == all[..e.frame0];
    order := Rank(disp, e.frame0);
    ranks := disp[e.frame0..];
    e.displays := disp[..];
  }

  /**
   * Parses one chunk, whose slices code `pics`: its units are those of the framing, each pushed in turn
   * with the count read from it, and the display numbers end up as the ranks of the counts recovered.
   */
  method RunChunk(e: Emit, p: Coding, raw: seq<byte>, vary: bool, ghost heads: seq<Head>, ghost pics: seq<Picture>)
    returns (ghost units: seq<Unit>, ghost order: seq<nat>, ghost ranks: seq<nat>)
    requires Sound(e.Now()) && CodingOk(p)
    requires forall i :: 0 <= i < |ChunkExtents(raw)| ==> ChunkExtents(raw)[i].len >= HeaderLen(p)
    requires Encoded(p, Slices(p, raw, ChunkExtents(raw)), heads, pics)
    modifies e
    ensures UnitsOk(units, CodecOf(p)) && UnitsAt(units, ChunkExtents(raw), raw)
    ensures Ranked(Keys(Recovered(0, pics, Log2(p))), order, ranks)
    ensures var t := PushAll(Begin(old(e.Now()), vary), units, CodecOf(p), vary);
            t.frame0 <= |t.displays| && e.Now() == t.(displays := t.displays[..t.frame0] + ranks)
    ensures FramesShow(old(e.Now()), e.Now(), CodecOf(p), units, vary) && |ranks| == CodedBefore(p, units, |units|)
  {
    hide FramesShow;
    hide Units, PushAll, Underway, Codes, Recovered, Ranked, KindOf, Slices, Result, Follow, Poc.Valid, Slice,
        FirstNal, UnitsOk;
    var poc := new Poc();
    ResetValid(poc, Log2(p));
    var extents := SplitUnits(raw, FirstNal(raw));
    assert extents == ChunkExtents(raw);
    e.BeginChunk(vary);
    ghost var s := e.Now();
    units := [];
    UnderwayAtStart(s, p, raw, extents, pics, vary);
    for i := 0 to |extents|
      invariant Underway(s, e.Now(), poc.Prev(), p, raw, extents, pics, units, vary, i) && poc.Valid(Log2(p))
      invariant Sound(e.Now())
    {
      ghost var n := |Slices(p, raw, extents[..i])|;
      SlicesStep(p, raw, extents, i);
      var nal := Slice(extents[i], raw);
      var count: Option<int> := None;
      KindParam(p, nal);
      ghost var now, prev := e.Now(), poc.Prev();
      if KindOf(p, nal) == Vcl {
        count := SliceCount(poc, p, nal, heads[n], pics[n]);
      }
      var u := Unit(nal, extents[i].offset, count);
      e.PushNal(u, CodecOf(p), vary);
      UnderwayOn(s, now, prev, p, raw, extents, pics, units, vary, i, u, e.Now(), poc.Prev());
      units := units + [u];
    }
    UnderwayAtEnd(s, e.Now(), poc.Prev(), p, raw, extents, pics, units, vary);
    ChunkShows(old(e.Now()), units, CodecOf(p), vary);
    ghost var t := e.Now();
    order, ranks := RankFrames(e);
    OnlyDisplays(old(e.Now()), t, e.Now(), CodecOf(p), units, vary);
    AsManyRanks(old(e.Now()), t, p, units, vary, order, ranks);
  }

  /** The units so far whose headers name a coded slice. */
  ghost function CodedBefore(p: Coding, units: seq<Unit>, n: nat): nat
    requires n <= |units|
  {
    if n == 0 then 0 else CodedBefore(p, units, n - 1) + if CodedSlice(p, units[n - 1].nal) then 1 else 0
  }

  lemma {:induction false} CodedCount(p: Coding, units: seq<Unit>, n: nat)
    requires n <= |units|
    ensures SlicesBefore(CodecOf(p), units, n) == CodedBefore(p, units, n)
  {
    hide KindOf, CodedSlice;
    if n > 0 {
      CodedCount(p, units, n - 1);
      VclIsSlice(p, units[n - 1].nal);
    }
  }

  lemma AsManyRanks(s: State, t: State, p: Coding, units: seq<Unit>, vary: bool, order: seq<nat>, ranks: seq<nat>)
    requires FramesShow(s, t, CodecOf(p), units, vary) && Sound(t) && t.frame0 == |s.arena|
    requires Ranked(t.displays[t.frame0..], order, ranks)
    ensures |ranks| == CodedBefore(p, units, |units|)
  {
    hide Kept, KindOf, FrameShows;
    CodedCount(p, units, |units|);
  }

  lemma OnlyDisplays(s: State, t: State, now: State, codec: Codec, units: seq<Unit>, vary: bool)
    requires FramesShow(s, t, codec, units, vary) && now.arena == t.arena && now.nals == t.nals
    ensures FramesShow(s, now, codec, units, vary)
  {}

  lemma UnderwayAtStart(s: State, p: Coding, raw: seq<byte>, extents: seq<ByteRange>, pics: seq<Picture>, vary: bool)
    requires Sound(s) && s.frame0 == |s.displays| && forall j :: 0 <= j < |extents| ==> InRange(extents[j], raw)
    ensures Underway(s, s, 0, p, raw, extents, pics, [], vary, 0)
  {
    assert extents[..0] == [] && pics[..0] == [] && s.displays[s.frame0..] == [];
  }

  lemma UnderwayAtEnd(s: State, now: State, poc: int, p: Coding, raw: seq<byte>, extents: seq<ByteRange>,
                      pics: seq<Picture>,
                      units: seq<Unit>, vary: bool)
    requires Underway(s, now, poc, p, raw, extents, pics, units, vary, |extents|) && |Slices(p, raw, extents)| == |pics|
    ensures UnitsOk(units, CodecOf(p)) && UnitsAt(units, extents, raw) && now == PushAll(s, units, CodecOf(p), vary)
    ensures now.frame0 <= |now.displays| && now.displays[now.frame0..] == Keys(Recovered(0, pics, Log2(p)))
  {
    hide PushAll, Recovered, UnitsOk, Slices, LastReference, Keys;
    assert extents[..|extents|] == extents && pics[..|pics|] == pics;
  }

  /**
   * A chunk whose pictures keep to their windows shows its frames in the order of their true counts if
   * and only if it does not mix negative with other counts.
   */
  lemma ChunkOrder(p: Coding, pics: seq<Picture>, order: seq<nat>, ranks: seq<nat>)
    requires InWindow(0, pics, Log2(p)) && Small(TruePocs(pics))
             && Ranked(Keys(Recovered(0, pics, Log2(p))), order, ranks)
    ensures |ranks| == |TruePocs(pics)|
    ensures InPocOrder(TruePocs(pics), ranks) <==> !Mixed(TruePocs(pics))
  {
    hide Recovered, InWindow, TruePocs, Keys;
    RunRecovered(0, pics, Log2(p));
    RankOrder(TruePocs(pics), order, ranks);
  }
}
