/** What collecting a chunk's NAL units makes of them: its frames, and the parameter sets held back. */
module NalStates {
  import opened Bytes
  import opened Ranges

  datatype Kind = Drop | Param(k: nat) | Prefix | Vcl

  /** What a codec makes of a NAL unit: its kind, decided by its header. */
  type Codec = seq<byte> -> Kind

  const NOTHING: ByteRange := ByteRange(0, 0)

  /** A NAL unit at an offset, and for a slice the picture order count read from it. */
  datatype Unit = Unit(nal: seq<byte>, off: nat, poc: Option<int>)

  function RangeOf(u: Unit): ByteRange { ByteRange(u.off, |u.nal|) }

  /** The growing lists, the parameter sets, and the access unit being collected. */
  datatype State = State(
    arena: seq<ByteRange>,     // frames: offset is the NAL count, len the block octets
    nals: seq<ByteRange>,      // NAL extents into the chunk
    displays: seq<nat>,
    rec: seq<seq<byte>>,       // first set of each kind
    varies: seq<bool>,         // some chunk differs from it
    first: seq<ByteRange>,     // this chunk's first set of each kind, held back
    frame0: nat,
    nal0: nat,
    size: nat)

  predicate Sound(s: State)
  {
    && |s.rec| == |s.varies| == |s.first| == 3
    && s.nal0 <= |s.nals| && s.frame0 <= |s.arena| == |s.displays|
  }

  function Add(s: State, u: Unit): State { s.(nals := s.nals + [RangeOf(u)], size := s.size + 4 + |u.nal|) }

  /** A parameter set: the record keeps the first of a kind, a chunk's first is held back, later ones go inline. */
  function PushParam(s: State, u: Unit, k: nat, vary: bool): State
    requires Sound(s) && k < 3
  {
    var kept := if s.rec[k] == [] then s.rec[k := u.nal] else s.rec;
    if !vary then s.(rec := kept)
    else if s.first[k].len != 0 then Add(s.(varies := s.varies[k := true]), u)
    else
      s.(first := s.first[k := RangeOf(u)], rec := kept,
         varies := if s.rec[k] != [] && s.rec[k] != u.nal then s.varies[k := true] else s.varies)
  }

  /** A slice closes the frame. */
  function PushSlice(s: State, u: Unit): State
    requires Sound(s)
  {
    var t := Add(s, u);
    var display := match u.poc case Some(p) => p % U32_LIMIT case None => (|s.arena| - s.frame0) % U32_LIMIT;
    t.(arena := s.arena + [ByteRange(|t.nals| - s.nal0, t.size)], displays := s.displays + [display], nal0 := |t.nals|,
       size := 0)
  }

  function Push(s: State, u: Unit, codec: Codec, vary: bool): (t: State)
    requires Sound(s) && (codec(u.nal).Param? ==> codec(u.nal).k < 3)
    ensures Sound(t) && t.frame0 == s.frame0
  {
    match codec(u.nal)
    case Drop => s
    case Param(k) => PushParam(s, u, k, vary)
    case Prefix => Add(s, u)
    case Vcl => PushSlice(s, u)
  }

  /** Kinds are VPS, SPS and PPS; no unit is empty. */
  ghost predicate UnitsOk(units: seq<Unit>, codec: Codec)
  {
    forall i :: 0 <= i < |units| ==> |units[i].nal| > 0 && (codec(units[i].nal).Param? ==> codec(units[i].nal).k < 3)
  }

  function PushAll(s: State, units: seq<Unit>, codec: Codec, vary: bool): (t: State)
    requires Sound(s) && UnitsOk(units, codec)
    ensures Sound(t) && t.frame0 == s.frame0
  {
    if |units| == 0 then s
    else Push(PushAll(s, units[..|units| - 1], codec, vary), units[|units| - 1], codec, vary)
  }

  /** The lists at the start of a chunk. */
  function Begin(s: State, vary: bool): (t: State)
    requires Sound(s)
    ensures Sound(t)
  {
    s.(first := if vary then [NOTHING, NOTHING, NOTHING] else s.first, frame0 := |s.arena|, nal0 := |s.nals|, size := 0)
  }

  // ---- frames

  /** The chunk's frames hold; the units since the last one are being collected. */
  ghost predicate Collecting(s: State, chunk0: nat)
  {
    && Sound(s) && chunk0 <= s.nal0
    && var frames, nals := s.arena[s.frame0..], s.nals[chunk0..];
       && NalStart(frames, |frames|) == s.nal0 - chunk0
       && s.size == NalOctets(s.nals[s.nal0..])
       && forall i :: 0 <= i < |frames| ==> FrameHolds(frames, nals, i)
  }

  lemma {:induction false} StartPrefix(frames: seq<ByteRange>, f: ByteRange, i: nat)
    requires i <= |frames|
    ensures NalStart(frames + [f], i) == NalStart(frames, i)
  {
    if i > 0 { StartPrefix(frames, f, i - 1); }
  }

  lemma {:induction false} StartMono(frames: seq<ByteRange>, i: nat, j: nat)
    requires i <= j <= |frames|
    ensures NalStart(frames, i) <= NalStart(frames, j)
    decreases j
  {
    if i < j { StartMono(frames, i, j - 1); }
  }

  lemma FrameHoldsMore(frames: seq<ByteRange>, nals: seq<ByteRange>, f: seq<ByteRange>, more: seq<ByteRange>, i: nat)
    requires i < |frames| && FrameHolds(frames, nals, i) && nals <= more && |f| <= 1
    ensures FrameHolds(frames + f, more, i)
  {
    if |f| == 1 {
      StartPrefix(frames, f[0], i);
      assert f == [f[0]];
    } else {
      assert frames + f == frames;
    }
    var start := NalStart(frames, i);
    assert more[start..start + frames[i].offset] == nals[start..start + frames[i].offset];
  }

  lemma NalOctetsSnoc(nals: seq<ByteRange>, r: ByteRange)
    ensures NalOctets(nals + [r]) == NalOctets(nals) + 4 + r.len
  {
    assert (nals + [r])[..|nals|] == nals;
  }

  lemma CollectAdd(s: State, chunk0: nat, u: Unit)
    requires Collecting(s, chunk0)
    ensures Collecting(Add(s, u), chunk0)
  {
    hide NalOctets, FrameHolds;
    var t := Add(s, u);
    assert t.nals[t.nal0..] == s.nals[s.nal0..] + [RangeOf(u)];
    NalOctetsSnoc(s.nals[s.nal0..], RangeOf(u));
    assert t.nals[chunk0..] == s.nals[chunk0..] + [RangeOf(u)];
    var frames := s.arena[s.frame0..];
    assert frames + [] == frames;
    forall i | 0 <= i < |frames| ensures FrameHolds(frames, t.nals[chunk0..], i) {
      FrameHoldsMore(frames, s.nals[chunk0..], [], t.nals[chunk0..], i);
    }
  }

  lemma CollectSlice(s: State, chunk0: nat, u: Unit)
    requires Collecting(s, chunk0)
    ensures Collecting(PushSlice(s, u), chunk0)
  {
    hide NalOctets, NalStart;
    var a, t := Add(s, u), PushSlice(s, u);
    CollectAdd(s, chunk0, u);
    var frames, f := s.arena[s.frame0..], t.arena[|s.arena|];
    var nals := t.nals[chunk0..];
    assert t.arena[t.frame0..] == frames + [f];
    StartPrefix(frames, f, |frames|);
    StartLast(frames, f);
    assert a.nals[a.nal0..] == nals[a.nal0 - chunk0..a.nal0 - chunk0 + f.offset];
    forall i | 0 <= i < |frames| + 1 ensures FrameHolds(frames + [f], nals, i) {
      if i < |frames| { FrameHoldsMore(frames, nals, [f], nals, i); }
    }
    NoOctets(t.nals[t.nal0..]);
  }

  lemma StartLast(frames: seq<ByteRange>, f: ByteRange)
    ensures NalStart(frames + [f], |frames| + 1) == NalStart(frames + [f], |frames|) + f.offset
  {}

  lemma NoOctets(nals: seq<ByteRange>)
    requires |nals| == 0
    ensures NalOctets(nals) == 0
  {}

  lemma CollectPush(s: State, chunk0: nat, u: Unit, codec: Codec, vary: bool)
    requires Collecting(s, chunk0) && (codec(u.nal).Param? ==> codec(u.nal).k < 3)
    ensures Collecting(Push(s, u, codec, vary), chunk0)
  {
    hide Collecting, Add, PushSlice;
    match codec(u.nal)
    case Drop =>
    case Param(k) => CollectParam(s, chunk0, u, k, vary);
    case Prefix => CollectAdd(s, chunk0, u);
    case Vcl => CollectSlice(s, chunk0, u);
  }

  lemma CollectParam(s: State, chunk0: nat, u: Unit, k: nat, vary: bool)
    requires Collecting(s, chunk0) && k < 3
    ensures Collecting(PushParam(s, u, k, vary), chunk0)
  {
    hide NalOctets, FrameHolds, NalStart;
    if vary && s.first[k].len != 0 {
      hide Add;
      CollectAdd(s.(varies := s.varies[k := true]), chunk0, u);
    }
  }

  /** Whatever the units, every frame's octets are those of its units and its offset their number. */
  lemma {:induction false} FramesAlways(s: State, units: seq<Unit>, codec: Codec, vary: bool)
    requires Sound(s) && UnitsOk(units, codec)
    ensures Collecting(PushAll(Begin(s, vary), units, codec, vary), |s.nals|)
    decreases units
  {
    hide Push, Collecting;
    if |units| == 0 {
      BeginCollects(s, vary);
    } else {
      var n := |units| - 1;
      FramesAlways(s, units[..n], codec, vary);
      CollectPush(PushAll(Begin(s, vary), units[..n], codec, vary), |s.nals|, units[n], codec, vary);
    }
  }

  lemma BeginCollects(s: State, vary: bool)
    requires Sound(s)
    ensures Collecting(Begin(s, vary), |s.nals|)
  {
    assert s.arena[|s.arena|..] == [] && s.nals[|s.nals|..] == [];
  }
}
