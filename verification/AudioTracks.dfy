/** What the samples of a track are: the units' own, cut to their ranges, then split into frames. */
module AudioTracks {
  import opened Bytes
  import opened Audio
  import opened AudioStream
  import opened FusedEncoding

  // ---- frames

  /** Frame `i` is samples `i * f` up to `(i + 1) * f`. */
  lemma {:induction false} FramedAt(pcm: seq<Sample>, f: nat, i: nat)
    requires f > 0 && i < |Framed(pcm, f)|
    ensures 0 <= i * f <= (i + 1) * f <= |pcm| && Framed(pcm, f)[i] == pcm[i * f..(i + 1) * f]
  {
    AddOne(i, f);
    FramedDrop(pcm, f, i);
    assert Framed(pcm, f)[i] == Framed(pcm, f)[i..][0];
    assert pcm[i * f..][..f] == pcm[i * f..i * f + f];
  }

  /** Padding adds the least silence that fills the last frame. */
  lemma PaddedIs(pcm: seq<Sample>, f: nat)
    requires f > 0
    ensures var all := Padded(pcm, f);
            && pcm <= all && |all| < |pcm| + f && |all| == |Framed(all, f)| * f
            && forall i :: |pcm| <= i < |all| ==> all[i] == 0
  {
    hide Framed;
    PaddedCount(pcm, f);
  }

  /** Counted in samples of all channels, as the batch does: of `n` samples, `per` to a frame. */
  lemma CountBySamples(pcm: seq<Sample>, n: nat, per: nat, ch: nat)
    requires per > 0 && ch > 0 && |pcm| == n * ch
    ensures per * ch > 0 && FrameCount(pcm, per * ch) == Div(n + per - 1, per)
  {
    MulOrder(1, per, ch);
    var q, p := FrameCount(pcm, per * ch), Div(n + per - 1, per);
    CeilDiv(n, per);
    assert q * (per * ch) == (q * per) * ch;
    assert n * ch + per * ch == (n + per) * ch;
    MulLeast(n, q * per, ch);
    MulLeast(q * per + 1, n + per, ch);
    AddOne(q * per, ch);
    Squeezed(q, p, n, per);
  }

  lemma MulLeast(a: nat, b: nat, ch: nat)
    requires ch > 0
    ensures a * ch < b * ch + ch ==> a <= b
  {
    MulOrder(a, b, ch);
  }

  lemma Squeezed(q: nat, p: nat, n: nat, per: nat)
    requires per > 0 && n <= q * per < n + per && n <= p * per < n + per
    ensures q == p
  {
    MulOrder(q, p, per);
    MulOrder(p, q, per);
  }

  /** The track has whole samples of all channels only. */
  lemma {:induction false} TrackWhole(units: seq<Decoded>, remaining: nat, ch: nat) returns (n: nat)
    requires ch > 0 && UnitsOk(units, ch)
    ensures |Track(units, remaining, ch)| == n * ch
    decreases units
  {
    hide Emitted;
    if |units| == 0 { return 0; }
    var e := EmittedWhole(units[0], remaining, ch);
    var rest := TrackWhole(units[1..], Emitted(units[0], remaining, ch).1, ch);
    n := e + rest;
    assert n * ch == e * ch + rest * ch;
  }

  lemma EmittedWhole(u: Decoded, remaining: nat, ch: nat) returns (n: nat)
    requires ch > 0 && u.dropFront * ch <= |u.pcm|
    ensures |Emitted(u, remaining, ch).0| == n * ch
  {
    var left := if u.rangeLen > 0 then u.rangeLen else remaining;
    UnitHas(u, ch);
    var have := Div(|u.pcm|, ch) - u.dropFront;
    n := if have < left then have else left;
    UnitPart(u, ch, n);
    assert (u.dropFront + n) * ch == u.dropFront * ch + n * ch;
  }

  // ---- ranges

  function Firsts(s: seq<Sample>, n: nat): seq<Sample> { if n < |s| then s[..n] else s }

  /** What a unit has behind the part to drop: whole samples of all its channels. */
  function Own(u: Decoded, ch: nat): seq<Sample>
    requires ch > 0 && u.dropFront * ch <= |u.pcm|
  {
    UnitHas(u, ch);
    UnitPart(u, ch, Div(|u.pcm|, ch) - u.dropFront);
    u.pcm[u.dropFront * ch..Div(|u.pcm|, ch) * ch]
  }

  function Flat(units: seq<Decoded>, ch: nat): seq<Sample>
    requires ch > 0 && UnitsOk(units, ch)
  {
    if |units| == 0 then [] else Own(units[0], ch) + Flat(units[1..], ch)
  }

  lemma EmittedIs(u: Decoded, remaining: nat, ch: nat)
    requires ch > 0 && u.dropFront * ch <= |u.pcm|
    ensures var left := if u.rangeLen > 0 then u.rangeLen else remaining;
            && Emitted(u, remaining, ch).0 == Firsts(Own(u, ch), left * ch)
            && |Own(u, ch)| == (Div(|u.pcm|, ch) - u.dropFront) * ch
            && Emitted(u, remaining, ch).1 == Sat(left, Div(|u.pcm|, ch) - u.dropFront)
  {
    var left := if u.rangeLen > 0 then u.rangeLen else remaining;
    var q := Div(|u.pcm|, ch);
    UnitHas(u, ch);
    var have := q - u.dropFront;
    var emit := if have < left then have else left;
    UnitPart(u, ch, have);
    UnitPart(u, ch, emit);
    Spread(q, u.dropFront, ch);
    Spread(u.dropFront + emit, u.dropFront, ch);
    MulOrder(left, have, ch);
    MulOrder(have, left, ch);
    if have >= left { MulLess(left, have, ch); }
  }

  lemma Spread(a: nat, b: nat, ch: nat)
    requires b <= a
    ensures (a - b) * ch == a * ch - b * ch
  {}

  lemma MulLess(a: nat, b: nat, ch: nat)
    requires ch > 0 && a <= b
    ensures a * ch < b * ch <==> a < b
  {
    if a < b { MulOrder(a + 1, b, ch); AddOne(a, ch); }
  }

  ghost predicate NoneStarts(units: seq<Decoded>) { forall u :: 0 <= u < |units| ==> units[u].rangeLen == 0 }

  lemma FirstsCut(a: seq<Sample>, b: seq<Sample>, n: nat)
    ensures Firsts(a + b, n) == if n <= |a| then Firsts(a, n) else a + Firsts(b, n - |a|)
  {}

  /** With so much of the range left, units that start none add the first of their samples up to there. */
  lemma {:induction false} TrackLeft(units: seq<Decoded>, remaining: nat, ch: nat)
    requires ch > 0 && UnitsOk(units, ch) && NoneStarts(units)
    ensures Track(units, remaining, ch) == Firsts(Flat(units, ch), remaining * ch)
    decreases units
  {
    hide Emitted, Own;
    if |units| > 0 {
      var u := units[0];
      EmittedIs(u, remaining, ch);
      var have := Div(|u.pcm|, ch) - u.dropFront;
      UnitHas(u, ch);
      TrackLeft(units[1..], Sat(remaining, have), ch);
      LeftOn(Own(u, ch), Flat(units[1..], ch), remaining, have, ch);
    }
  }

  lemma LeftOn(own: seq<Sample>, rest: seq<Sample>, left: nat, have: nat, ch: nat)
    requires ch > 0 && |own| == have * ch
    ensures Firsts(own, left * ch) + Firsts(rest, Sat(left, have) * ch) == Firsts(own + rest, left * ch)
  {
    FirstsCut(own, rest, left * ch);
    if left <= have {
      MulOrder(left, have, ch);
      assert Sat(left, have) == 0 && Firsts(rest, 0) == [];
    } else {
      MulOrder(have, left, ch);
      Spread(left, have, ch);
    }
  }

  /** A range's units, the first with its length, give the first `rangeLen` samples of each channel they have. */
  lemma RangeTrack(units: seq<Decoded>, remaining: nat, ch: nat)
    requires ch > 0 && UnitsOk(units, ch) && |units| > 0 && units[0].rangeLen > 0 && NoneStarts(units[1..])
    ensures Track(units, remaining, ch) == Firsts(Flat(units, ch), units[0].rangeLen * ch)
  {
    hide Emitted, Own;
    var u := units[0];
    EmittedIs(u, remaining, ch);
    UnitHas(u, ch);
    var have := Div(|u.pcm|, ch) - u.dropFront;
    TrackLeft(units[1..], Sat(u.rangeLen, have), ch);
    LeftOn(Own(u, ch), Flat(units[1..], ch), u.rangeLen, have, ch);
  }

  /** A new range begins afresh: what was left of the one before does not matter. */
  lemma {:induction false} RangesJoin(a: seq<Decoded>, b: seq<Decoded>, remaining: nat, other: nat, ch: nat)
    requires ch > 0 && UnitsOk(a, ch) && UnitsOk(b, ch) && |b| > 0 && b[0].rangeLen > 0
    ensures UnitsOk(a + b, ch) && Track(a + b, remaining, ch) == Track(a, remaining, ch) + Track(b, other, ch)
    decreases a
  {
    hide Emitted;
    if |a| == 0 {
      assert a + b == b;
      Afresh(b[0], remaining, other, ch);
    } else {
      assert (a + b)[0] == a[0] && (a + b)[1..] == a[1..] + b;
      RangesJoin(a[1..], b, Emitted(a[0], remaining, ch).1, other, ch);
    }
  }

  lemma Afresh(u: Decoded, remaining: nat, other: nat, ch: nat)
    requires ch > 0 && u.dropFront * ch <= |u.pcm| && u.rangeLen > 0
    ensures Emitted(u, remaining, ch) == Emitted(u, other, ch)
  {}
}
