/** Parameter sets between the codec-private record and the stream: what is active at a slice does not change. */
module ParamSets {
  import opened Bytes
  import opened Ranges
  import opened NalStates

  // ---- what a decoder has active

  /** The parameter sets of kind `k` among NAL units, in order. */
  function SetsOf(codec: Codec, nals: seq<seq<byte>>, k: nat): seq<seq<byte>>
  {
    if |nals| == 0 then []
    else
      var n := |nals| - 1;
      SetsOf(codec, nals[..n], k) + if codec(nals[n]) == Param(k) then [nals[n]] else []
  }

  /** The identifier written in a parameter set. */
  type Ident = seq<byte> -> nat

  /**
   * Among sets of one kind, the last with the identifier: a set replaces the one before it under the
   * same identifier.
   */
  function Active(sets: seq<seq<byte>>, ident: Ident, id: nat): Option<seq<byte>>
  {
    if |sets| == 0 then None
    else
      var n := |sets| - 1;
      if ident(sets[n]) == id then Some(sets[n]) else Active(sets[..n], ident, id)
  }

  function OrElse<T>(a: Option<T>, b: Option<T>): Option<T> { if a.Some? then a else b }

  lemma {:induction false} SetsConcat(codec: Codec, a: seq<seq<byte>>, b: seq<seq<byte>>, k: nat)
    ensures SetsOf(codec, a + b, k) == SetsOf(codec, a, k) + SetsOf(codec, b, k)
  {
    if |b| == 0 {
      assert a + b == a;
    } else {
      var n := |b| - 1;
      assert (a + b)[..|a| + n] == a + b[..n];
      SetsConcat(codec, a, b[..n], k);
    }
  }

  lemma SetsSnoc(codec: Codec, a: seq<seq<byte>>, x: seq<byte>, k: nat)
    ensures SetsOf(codec, a + [x], k) == SetsOf(codec, a, k) + if codec(x) == Param(k) then [x] else []
  {
    assert (a + [x])[..|a|] == a;
  }

  lemma {:induction false} ActiveConcat(a: seq<seq<byte>>, b: seq<seq<byte>>, ident: Ident, id: nat)
    ensures Active(a + b, ident, id) == OrElse(Active(b, ident, id), Active(a, ident, id))
  {
    if |b| == 0 {
      assert a + b == a;
    } else {
      var n := |b| - 1;
      assert (a + b)[..|a| + n] == a + b[..n];
      ActiveConcat(a, b[..n], ident, id);
    }
  }

  /** A list that holds a set with the identifier has one active. */
  lemma {:induction false} ActiveIn(sets: seq<seq<byte>>, ident: Ident, id: nat, i: nat)
    requires i < |sets| && ident(sets[i]) == id
    ensures Active(sets, ident, id).Some?
  {
    if i < |sets| - 1 { ActiveIn(sets[..|sets| - 1], ident, id, i); }
  }

  // ---- octets of extents

  ghost predicate AllIn(ranges: seq<ByteRange>, raw: seq<byte>)
  {
    forall i :: 0 <= i < |ranges| ==> InRange(ranges[i], raw)
  }

  function Texts(ranges: seq<ByteRange>, raw: seq<byte>): (s: seq<seq<byte>>)
    requires AllIn(ranges, raw)
    ensures |s| == |ranges|
  {
    seq(|ranges|, i requires 0 <= i < |ranges| => Slice(ranges[i], raw))
  }

  function Originals(units: seq<Unit>): (s: seq<seq<byte>>)
    ensures |s| == |units|
  {
    seq(|units|, i requires 0 <= i < |units| => units[i].nal)
  }

  /** The units' offsets lead to their octets. */
  ghost predicate UnitIn(u: Unit, raw: seq<byte>) { InRange(RangeOf(u), raw) && Slice(RangeOf(u), raw) == u.nal }

  ghost predicate UnitsIn(units: seq<Unit>, raw: seq<byte>)
  {
    forall i :: 0 <= i < |units| ==> UnitIn(units[i], raw)
  }

  lemma TextsSnoc(ranges: seq<ByteRange>, r: ByteRange, raw: seq<byte>)
    requires AllIn(ranges, raw) && InRange(r, raw)
    ensures AllIn(ranges + [r], raw) && Texts(ranges + [r], raw) == Texts(ranges, raw) + [Slice(r, raw)]
  {}

  // ---- one chunk

  /** What the held-back set and the inline units of kind `k` say about the units seen so far. */
  ghost predicate Tracked(s: State, chunk0: nat, units: seq<Unit>, raw: seq<byte>, codec: Codec, k: nat)
  {
    && Sound(s) && k < 3 && chunk0 <= |s.nals| && AllIn(s.nals[chunk0..], raw)
    && (s.first[k].len != 0 ==> FirstHolds(s, raw, codec, k))
    && var inline := SetsOf(codec, Texts(s.nals[chunk0..], raw), k);
       && (inline != [] ==> s.varies[k] && s.first[k].len != 0)
       && SetsOf(codec, Originals(units), k) == Held(s, raw, k) + inline
  }

  ghost predicate FirstHolds(s: State, raw: seq<byte>, codec: Codec, k: nat)
    requires Sound(s) && k < 3
  {
    && InRange(s.first[k], raw) && codec(Slice(s.first[k], raw)) == Param(k)
    && s.rec[k] != [] && (Slice(s.first[k], raw) == s.rec[k] || s.varies[k])
  }

  ghost function Held(s: State, raw: seq<byte>, k: nat): seq<seq<byte>>
    requires Sound(s) && k < 3 && (s.first[k].len != 0 ==> InRange(s.first[k], raw))
  {
    if s.first[k].len != 0 then [Slice(s.first[k], raw)] else []
  }

  lemma OriginalsSnoc(units: seq<Unit>, u: Unit)
    ensures Originals(units + [u]) == Originals(units) + [u.nal]
  {}

  /** A unit that goes inline. */
  lemma TrackAdd(s: State, chunk0: nat, units: seq<Unit>, u: Unit, raw: seq<byte>, codec: Codec, k: nat)
    requires Tracked(s, chunk0, units, raw, codec, k) && UnitIn(u, raw)
    requires codec(u.nal) == Param(k) ==> s.varies[k] && s.first[k].len != 0
    ensures Tracked(Add(s, u), chunk0, units + [u], raw, codec, k)
  {
    hide SetsOf, FirstHolds, Originals, Slice, InRange;
    var t := Add(s, u);
    var nals := s.nals[chunk0..];
    assert t.nals[chunk0..] == nals + [RangeOf(u)];
    TextsSnoc(nals, RangeOf(u), raw);
    SetsSnoc(codec, Texts(nals, raw), u.nal, k);
    OriginalsSnoc(units, u);
    SetsSnoc(codec, Originals(units), u.nal, k);
    FirstSame(s, t, raw, codec, k);
  }

  lemma FirstSame(s: State, t: State, raw: seq<byte>, codec: Codec, k: nat)
    requires Sound(s) && Sound(t) && k < 3 && s.first[k] == t.first[k] && s.rec[k] == t.rec[k]
             && (s.varies[k] ==> t.varies[k])
    ensures FirstHolds(s, raw, codec, k) ==> FirstHolds(t, raw, codec, k)
  {}

  /** A unit that leaves kind `k` alone. */
  lemma TrackOther(s: State, t: State, chunk0: nat, units: seq<Unit>, u: Unit, raw: seq<byte>, codec: Codec, k: nat)
    requires Tracked(s, chunk0, units, raw, codec, k) && codec(u.nal) != Param(k) && Sound(t)
    requires t.nals == s.nals && t.first[k] == s.first[k] && t.rec[k] == s.rec[k] && (s.varies[k] ==> t.varies[k])
    ensures Tracked(t, chunk0, units + [u], raw, codec, k)
  {
    hide SetsOf, FirstHolds, Originals, Slice, InRange;
    OriginalsSnoc(units, u);
    SetsSnoc(codec, Originals(units), u.nal, k);
    FirstSame(s, t, raw, codec, k);
  }

  /** The chunk's first set of kind `k` is held back. */
  lemma TrackFirst(s: State, chunk0: nat, units: seq<Unit>, u: Unit, raw: seq<byte>, codec: Codec, k: nat)
    requires Tracked(s, chunk0, units, raw, codec, k) && UnitIn(u, raw) && codec(u.nal) == Param(k) && |u.nal| > 0
    requires s.first[k].len == 0
    ensures Tracked(PushParam(s, u, k, true), chunk0, units + [u], raw, codec, k)
  {
    hide SetsOf, Originals, Slice, InRange;
    OriginalsSnoc(units, u);
    SetsSnoc(codec, Originals(units), u.nal, k);
  }

  lemma TrackPush(s: State, chunk0: nat, units: seq<Unit>, u: Unit, raw: seq<byte>, codec: Codec, k: nat)
    requires Tracked(s, chunk0, units, raw, codec, k) && UnitIn(u, raw) && |u.nal| > 0
    requires codec(u.nal).Param? ==> codec(u.nal).k < 3
    ensures Tracked(Push(s, u, codec, true), chunk0, units + [u], raw, codec, k)
  {
    hide Tracked, UnitIn;
    TrackedFacts(s, chunk0, units, raw, codec, k);
    var t := Push(s, u, codec, true);
    match codec(u.nal)
    case Drop => TrackOther(s, s, chunk0, units, u, raw, codec, k);
    case Prefix => TrackAdd(s, chunk0, units, u, raw, codec, k);
    case Vcl =>
      TrackAdd(s, chunk0, units, u, raw, codec, k);
      TrackClosed(Add(s, u), t, chunk0, units + [u], raw, codec, k);
    case Param(j) =>
      if s.first[j].len != 0 {
        var v := s.(varies := s.varies[j := true]);
        TrackClosed(s, v, chunk0, units, raw, codec, k);
        TrackAdd(v, chunk0, units, u, raw, codec, k);
      } else if j == k {
        TrackFirst(s, chunk0, units, u, raw, codec, k);
      } else {
        TrackOther(s, t, chunk0, units, u, raw, codec, k);
      }
  }

  lemma TrackedFacts(s: State, chunk0: nat, units: seq<Unit>, raw: seq<byte>, codec: Codec, k: nat)
    requires Tracked(s, chunk0, units, raw, codec, k)
    ensures Sound(s) && k < 3 && chunk0 <= |s.nals| && AllIn(s.nals[chunk0..], raw)
  {
    hide SetsOf, FirstHolds;
  }

  lemma TrackClosed(s: State, t: State, chunk0: nat, units: seq<Unit>, raw: seq<byte>, codec: Codec, k: nat)
    requires Tracked(s, chunk0, units, raw, codec, k) && Sound(t)
    requires t.nals == s.nals && t.first == s.first && t.rec == s.rec && (s.varies[k] ==> t.varies[k])
    ensures Tracked(t, chunk0, units, raw, codec, k)
  {
    hide SetsOf, FirstHolds, Originals, Slice, InRange;
    FirstSame(s, t, raw, codec, k);
  }

  lemma {:induction false} ChunkTracked(s: State, units: seq<Unit>, raw: seq<byte>, codec: Codec, k: nat)
    requires Sound(s) && UnitsOk(units, codec) && UnitsIn(units, raw) && k < 3
    ensures Tracked(PushAll(Begin(s, true), units, codec, true), |s.nals|, units, raw, codec, k)
    decreases units
  {
    hide Push, Tracked, UnitIn;
    if |units| == 0 {
      BeginTracked(s, raw, codec, k);
      assert units == [];
    } else {
      var n := |units| - 1;
      ChunkTracked(s, units[..n], raw, codec, k);
      TrackPush(PushAll(Begin(s, true), units[..n], codec, true), |s.nals|, units[..n], units[n], raw, codec, k);
      assert units[..n] + [units[n]] == units;
    }
  }

  lemma BeginTracked(s: State, raw: seq<byte>, codec: Codec, k: nat)
    requires Sound(s) && k < 3
    ensures Tracked(Begin(s, true), |s.nals|, [], raw, codec, k)
  {
    assert s.nals[|s.nals|..] == [];
  }

  // ---- growth

  /** Records once made stay; a kind once varying stays so; lists only grow. */
  ghost predicate Grows(s: State, t: State)
  {
    && Sound(s) && Sound(t) && s.nals <= t.nals && s.arena <= t.arena && s.displays <= t.displays && s.nal0 <= t.nal0
    && forall k :: 0 <= k < 3 ==> (s.rec[k] != [] ==> t.rec[k] == s.rec[k]) && (s.varies[k] ==> t.varies[k])
  }

  lemma PushGrows(s: State, u: Unit, codec: Codec, vary: bool)
    requires Sound(s) && (codec(u.nal).Param? ==> codec(u.nal).k < 3)
    ensures Grows(s, Push(s, u, codec, vary))
  {}

  lemma GrowsOn(a: State, b: State, c: State)
    requires Grows(a, b) && Grows(b, c)
    ensures Grows(a, c)
  {}

  lemma {:induction false} AllGrows(s: State, units: seq<Unit>, codec: Codec, vary: bool, j: nat)
    requires Sound(s) && UnitsOk(units, codec) && j <= |units|
    ensures Grows(PushAll(s, units[..j], codec, vary), PushAll(s, units, codec, vary))
    decreases |units| - j
  {
    hide Push, Grows;
    if j < |units| {
      AllGrows(s, units, codec, vary, j + 1);
      assert units[..j + 1][..j] == units[..j];
      PushGrows(PushAll(s, units[..j], codec, vary), units[j], codec, vary);
      GrowsOn(PushAll(s, units[..j], codec, vary), PushAll(s, units[..j + 1], codec, vary),
              PushAll(s, units, codec, vary));
    } else {
      assert units[..j] == units;
      GrowsSelf(PushAll(s, units, codec, vary));
    }
  }

  lemma GrowsSelf(s: State)
    requires Sound(s)
    ensures Grows(s, s)
  {}

  // ---- inlining

  /** The held-back sets of the kinds that vary. */
  function Inline(first: seq<ByteRange>, varies: seq<bool>, n: nat): seq<ByteRange>
    requires |first| == |varies| == 3 && n <= 3
  {
    if n == 0 then []
    else Inline(first, varies, n - 1) + if varies[n - 1] && first[n - 1].len != 0 then [first[n - 1]] else []
  }

  /** A chunk's frames with `more` units put in front of its first. */
  function Fronted(frames: seq<ByteRange>, more: seq<ByteRange>): seq<ByteRange>
    requires |frames| > 0
  {
    frames[0 := ByteRange(frames[0].offset + |more|, frames[0].len + NalOctets(more))]
  }

  lemma {:induction false} NalOctetsConcat(a: seq<ByteRange>, b: seq<ByteRange>)
    ensures NalOctets(a + b) == NalOctets(a) + NalOctets(b)
  {
    if |b| == 0 {
      assert a + b == a;
    } else {
      var n := |b| - 1;
      assert (a + b)[..|a| + n] == a + b[..n];
      NalOctetsConcat(a, b[..n]);
    }
  }

  lemma {:induction false} FrontedStart(frames: seq<ByteRange>, more: seq<ByteRange>, i: nat)
    requires 0 < |frames| && i <= |frames|
    ensures NalStart(Fronted(frames, more), i) == NalStart(frames, i) + if i == 0 then 0 else |more|
  {
    hide NalOctets;
    if i > 0 { FrontedStart(frames, more, i - 1); }
  }

  /** Every frame still is a run of units with the octets of those units. */
  lemma FrontedHolds(frames: seq<ByteRange>, nals: seq<ByteRange>, more: seq<ByteRange>, i: nat)
    requires i < |frames| && FrameHolds(frames, nals, i)
    ensures FrameHolds(Fronted(frames, more), more + nals, i)
  {
    hide NalOctets, NalStart;
    FrontedStart(frames, more, i);
    var start := NalStart(frames, i);
    var own := nals[start..start + frames[i].offset];
    if i == 0 {
      StartZero(frames);
      assert (more + nals)[..|more| + frames[0].offset] == more + own;
      NalOctetsConcat(more, own);
      StartZero(Fronted(frames, more));
    } else {
      assert (more + nals)[start + |more|..start + |more| + frames[i].offset] == own;
    }
  }

  lemma StartZero(frames: seq<ByteRange>)
    ensures NalStart(frames, 0) == 0
  {}
}
