/** Encoding audio while it is decoded: the same octets as encoding it all at once. */
module AudioStream {
  import opened Bytes
  import opened Audio
  import Ranks

  // ---- frames of samples

  /** The whole frames of `f` samples each. */
  function Framed(pcm: seq<Sample>, f: nat): seq<Frame>
    requires f > 0
    decreases |pcm|
  {
    if |pcm| < f then [] else [pcm[..f]] + Framed(pcm[f..], f)
  }

  /** Frames, the last filled up with silence. */
  function FrameCount(pcm: seq<Sample>, f: nat): (n: nat)
    requires f > 0
    ensures |pcm| <= n * f < |pcm| + f
  {
    var n := Div(|pcm| + f - 1, f);
    CeilDiv(|pcm|, f);
    n
  }

  lemma CeilDiv(a: nat, f: nat)
    requires f > 0
    ensures a <= Div(a + f - 1, f) * f < a + f
  {
    var q := Div(a + f - 1, f);
    assert f * q == q * f;
  }

  function Padded(pcm: seq<Sample>, f: nat): seq<Sample>
    requires f > 0
  {
    pcm + seq(FrameCount(pcm, f) * f - |pcm|, _ => 0)
  }

  lemma {:induction false} FramedCount(pcm: seq<Sample>, f: nat)
    requires f > 0
    ensures |Framed(pcm, f)| * f <= |pcm| < |Framed(pcm, f)| * f + f
    decreases |pcm|
  {
    if |pcm| >= f {
      FramedCount(pcm[f..], f);
      assert |Framed(pcm, f)| == 1 + |Framed(pcm[f..], f)|;
      AddOne(|Framed(pcm[f..], f)|, f);
    }
  }

  lemma AddOne(a: nat, f: nat)
    ensures (a + 1) * f == a * f + f
  {}

  lemma MulOrder(a: int, b: int, f: nat)
    requires f > 0
    ensures a * f < b * f + f ==> a <= b
    ensures a <= b ==> a * f <= b * f
  {
    if a > b { assert a * f >= (b + 1) * f == b * f + f by { Larger(a, b + 1, f); } }
    if a <= b { Larger(b, a, f); }
  }

  lemma Larger(a: int, b: int, f: nat)
    requires a >= b
    ensures a * f >= b * f && (b - 1 + 1) * f == (b - 1) * f + f
  {}

  /** So many samples are there exactly when so many frames are. */
  lemma EnoughFrames(pcm: seq<Sample>, f: nat, m: nat)
    requires f > 0
    ensures |pcm| >= m * f <==> |Framed(pcm, f)| >= m
  {
    FramedCount(pcm, f);
    MulOrder(m, |Framed(pcm, f)|, f);
  }

  lemma {:induction false} FramedDrop(pcm: seq<Sample>, f: nat, g: nat)
    requires f > 0 && g <= |Framed(pcm, f)|
    ensures 0 <= g * f <= |pcm| && Framed(pcm[g * f..], f) == Framed(pcm, f)[g..]
    decreases g
  {
    if g > 0 {
      FramedFirst(pcm, f);
      FramedDrop(pcm[f..], f, g - 1);
      AddOne(g - 1, f);
      DropTwice(pcm, f, (g - 1) * f);
      DropTwice(Framed(pcm, f), 1, g - 1);
    } else {
      assert pcm[0..] == pcm;
    }
  }

  lemma FramedFirst(pcm: seq<Sample>, f: nat)
    requires f > 0 && |Framed(pcm, f)| > 0
    ensures f <= |pcm| && Framed(pcm, f)[1..] == Framed(pcm[f..], f)
  {}

  lemma DropTwice<T>(s: seq<T>, a: nat, b: nat)
    requires a + b <= |s|
    ensures s[a..][b..] == s[a + b..]
  {}

  lemma {:induction false} FramedMore(pcm: seq<Sample>, more: seq<Sample>, f: nat)
    requires f > 0
    ensures Framed(pcm, f) <= Framed(pcm + more, f)
    decreases |pcm|
  {
    if |pcm| >= f {
      FramedMore(pcm[f..], more, f);
      assert (pcm + more)[f..] == pcm[f..] + more;
      assert (pcm + more)[..f] == pcm[..f];
    }
  }

  lemma PaddedCount(pcm: seq<Sample>, f: nat)
    requires f > 0
    ensures |Framed(Padded(pcm, f), f)| == FrameCount(pcm, f)
  {
    FramedCount(Padded(pcm, f), f);
    MulOrder(|Framed(Padded(pcm, f), f)|, FrameCount(pcm, f), f);
    MulOrder(FrameCount(pcm, f), |Framed(Padded(pcm, f), f)|, f);
  }

  /** Dropping whole frames and padding commute. */
  lemma PaddedDrop(pcm: seq<Sample>, f: nat, g: nat)
    requires f > 0 && g <= |Framed(pcm, f)|
    ensures 0 <= g * f <= |pcm| && FrameCount(pcm[g * f..], f) == FrameCount(pcm, f) - g
    ensures g <= |Framed(Padded(pcm, f), f)| && Framed(Padded(pcm[g * f..], f), f) == Framed(Padded(pcm, f), f)[g..]
  {
    hide Framed, FrameCount;
    FramedDrop(pcm, f, g);
    var n, m := FrameCount(pcm, f), FrameCount(pcm[g * f..], f);
    Shifted(n, m, g, f, |pcm|);
    FramedMore(pcm, seq(n * f - |pcm|, _ => 0), f);
    assert Padded(pcm[g * f..], f) == Padded(pcm, f)[g * f..];
    FramedDrop(Padded(pcm, f), f, g);
  }

  lemma Shifted(n: nat, m: nat, g: nat, f: nat, len: nat)
    requires f > 0 && g * f <= len && len <= n * f < len + f && len - g * f <= m * f < len - g * f + f
    ensures m == n - g && m * f == n * f - g * f
  {
    assert (m + g) * f == m * f + g * f;
    MulOrder(m + g, n, f);
    MulOrder(n, m + g, f);
  }

  // ---- chunks depend only on the frames they are fed

  lemma {:induction false} FedSame<S>(codec: Codec<S>, st: S, a: seq<Frame>, b: seq<Frame>, g: nat, lo: nat, hi: nat)
    requires lo <= hi <= |a| && g + hi <= |b| && forall i :: lo <= i < hi ==> a[i] == b[g + i]
    ensures Fed(codec, st, a, lo, hi) == Fed(codec, st, b, g + lo, g + hi)
    decreases hi - lo
  {
    if lo < hi && codec.encode(st, a[lo]).Some? {
      FedSame(codec, codec.encode(st, a[lo]).value.0, a, b, g, lo + 1, hi);
    }
  }

  lemma {:induction false} KeptSame<S>(codec: Codec<S>, st: S, a: seq<Frame>, b: seq<Frame>, g: nat, lo: nat, hi: nat)
    requires lo <= hi <= |a| && g + hi <= |b| && forall i :: lo <= i < hi ==> a[i] == b[g + i]
    ensures Kept(codec, st, a, lo, hi) == Kept(codec, st, b, g + lo, g + hi)
    decreases hi - lo
  {
    hide Packet;
    if lo < hi && codec.encode(st, a[lo]).Some? {
      KeptSame(codec, codec.encode(st, a[lo]).value.0, a, b, g, lo + 1, hi);
    }
  }

  lemma WindowSame<S>(codec: Codec<S>, a: seq<Frame>, b: seq<Frame>, g: nat, fs: nat, ks: nat, ke: nat, fe: nat,
                      head: bool)
    requires fs <= ks <= ke <= fe <= |a| && g + fe <= |b| && forall i :: fs <= i < fe ==> a[i] == b[g + i]
    ensures Window(codec, a, fs, ks, ke, fe, head) == Window(codec, b, g + fs, g + ks, g + ke, g + fe, head)
  {
    hide Packet, Fed, Kept;
    if codec.begin.Some? {
      var st0 := codec.begin.value;
      FedSame(codec, st0, a, b, g, fs, ks);
      var st1 := Fed(codec, st0, a, fs, ks);
      if st1.Some? {
        KeptSame(codec, st1.value, a, b, g, ks, ke);
        var kept := Kept(codec, st1.value, a, ks, ke);
        if kept.Some? { FedSame(codec, kept.value.0, a, b, g, ke, fe); }
      }
    }
  }

  // ---- all at once

  /** `chunk_encode`: the whole track in one run of chunks. */
  function Batch<S>(codec: Codec<S>, pcm: seq<Sample>, f: nat): Option<seq<byte>>
    requires f > 0
  {
    var frames := Framed(Padded(pcm, f), f);
    SegBytes(codec, frames, Seg(0, |frames|, true))
  }

  method ChunkEncode<S>(codec: Codec<S>, pcm: seq<Sample>, f: nat, order: seq<nat>) returns (out: Option<seq<byte>>)
    requires f > 0 && Ranks.Lists(order, ChunkCount(FrameCount(pcm, f)))
    ensures out == Batch(codec, pcm, f)
  {
    PaddedCount(pcm, f);
    var frames := Framed(Padded(pcm, f), f);
    out := ParEncode(codec, frames, Seg(0, |frames|, true), order);
  }

  // ---- chunks as a stream of whole ones

  /** Chunk `c` with its full run-in and run-out. */
  function Whole<S>(codec: Codec<S>, frames: seq<Frame>, c: nat): Option<seq<byte>>
    requires (c + 1) * CHUNK_FRAMES + POSTROLL <= |frames|
  {
    var start := c * CHUNK_FRAMES;
    Window(codec, frames, Sat(start, PREROLL), start, start + CHUNK_FRAMES, start + CHUNK_FRAMES + POSTROLL, c == 0)
  }

  /** The first `m` chunks. */
  function Wholes<S>(codec: Codec<S>, frames: seq<Frame>, m: nat): Option<seq<byte>>
    requires m > 0 ==> m * CHUNK_FRAMES + POSTROLL <= |frames|
  {
    if m == 0 then Some([]) else Cat(Wholes(codec, frames, m - 1), Whole(codec, frames, m - 1))
  }

  lemma {:induction false} WholesMore<S>(codec: Codec<S>, a: seq<Frame>, b: seq<Frame>, m: nat)
    requires a <= b && (m > 0 ==> m * CHUNK_FRAMES + POSTROLL <= |a|)
    ensures Wholes(codec, a, m) == Wholes(codec, b, m)
  {
    hide Window, Cat;
    if m > 0 {
      WholesMore(codec, a, b, m - 1);
      var start := (m - 1) * CHUNK_FRAMES;
      WindowSame(codec, a, b, 0, Sat(start, PREROLL), start, start + CHUNK_FRAMES, start + CHUNK_FRAMES + POSTROLL,
                 m - 1 == 0);
    }
  }

  lemma CatAssoc(a: Option<seq<byte>>, b: Option<seq<byte>>, c: Option<seq<byte>>)
    ensures Cat(Cat(a, b), c) == Cat(a, Cat(b, c))
  {
    if a.Some? && b.Some? && c.Some? { assert (a.value + b.value) + c.value == a.value + (b.value + c.value); }
  }

  lemma CatNothing(a: Option<seq<byte>>)
    ensures Cat(a, Some([])) == a && Cat(Some([]), a) == a
  {
    if a.Some? { assert a.value + [] == a.value && [] + a.value == a.value; }
  }

  /** Where the buffer is: its first frame is frame `g` of the track, and `off` frames of it are out already. */
  ghost predicate Aligned(g: nat, off: nat, q: nat)
  {
    if q == 0 then g == 0 && off == 0 else off == PREROLL && g + off == q * CHUNK_FRAMES
  }

  /** A whole chunk of the buffer is the whole chunk of the track. */
  lemma ChunkIsWhole<S>(codec: Codec<S>, all: seq<Frame>, g: nat, off: nat, q: nat, nkeep: nat, c: nat)
    requires g <= |all| && Aligned(g, off, q) && (c + 1) * CHUNK_FRAMES <= nkeep && off + nkeep + POSTROLL <= |all[g..]|
    ensures (q + c + 1) * CHUNK_FRAMES + POSTROLL <= |all|
    ensures ChunkIn(Seg(off, nkeep, q == 0), c, |all[g..]|)
    ensures ChunkBytes(codec, all[g..], Seg(off, nkeep, q == 0), c) == Whole(codec, all, q + c)
  {
    hide Window;
    var start := off + c * CHUNK_FRAMES;
    WindowSame(codec, all[g..], all, g, Sat(start, PREROLL), start, start + CHUNK_FRAMES,
               start + CHUNK_FRAMES + POSTROLL, q + c == 0);
  }

  /** Whole chunks of the buffer continue the whole chunks of the track. */
  lemma {:induction false} SegIsWholes<S>(codec: Codec<S>, all: seq<Frame>, g: nat, off: nat, q: nat, nkeep: nat,
                                          k: nat)
    requires g <= |all| && Aligned(g, off, q) && k * CHUNK_FRAMES <= nkeep && off + nkeep + POSTROLL <= |all[g..]|
             && k <= ChunkCount(nkeep)
    ensures q + k > 0 ==> (q + k) * CHUNK_FRAMES + POSTROLL <= |all|
    ensures q > 0 ==> q * CHUNK_FRAMES + POSTROLL <= |all|
    ensures Cat(Wholes(codec, all, q), ChunksBytes(codec, all[g..], Seg(off, nkeep, q == 0), k))
            == Wholes(codec, all, q + k)
  {
    hide ChunkBytes, Cat, Whole;
    if k > 0 {
      SegIsWholes(codec, all, g, off, q, nkeep, k - 1);
      ChunkIsWhole(codec, all, g, off, q, nkeep, k - 1);
      CatAssoc(Wholes(codec, all, q), ChunksBytes(codec, all[g..], Seg(off, nkeep, q == 0), k - 1),
               ChunkBytes(codec, all[g..], Seg(off, nkeep, q == 0), k - 1));
    } else {
      CatNothing(Wholes(codec, all, q));
    }
  }

  /** The chunks behind the first `q` of the track are those of the buffer's rest. */
  lemma RestChunk<S>(codec: Codec<S>, all: seq<Frame>, g: nat, off: nat, q: nat, c: nat)
    requires g + off < |all| && Aligned(g, off, q)
    requires c * CHUNK_FRAMES <= |all| - g - off
    ensures ChunkIn(Seg(off, |all| - g - off, q == 0), c, |all[g..]|) && ChunkIn(Seg(0, |all|, true), q + c, |all|)
    ensures ChunkBytes(codec, all[g..], Seg(off, |all| - g - off, q == 0), c)
            == ChunkBytes(codec, all, Seg(0, |all|, true), q + c)
  {
    hide Window;
    var seg := Seg(off, |all| - g - off, q == 0);
    var start, end := KeepStart(seg, c), KeepEnd(seg, c);
    WindowSame(codec, all[g..], all, g, Sat(start, PREROLL), start, end, Min(end + POSTROLL, |all[g..]|), q + c == 0);
  }

  lemma {:induction false} RestChunks<S>(codec: Codec<S>, all: seq<Frame>, g: nat, off: nat, q: nat, k: nat)
    requires g + off < |all| && Aligned(g, off, q) && k <= ChunkCount(|all| - g - off)
    ensures q + k <= ChunkCount(|all|)
    ensures Cat(ChunksBytes(codec, all, Seg(0, |all|, true), q),
                ChunksBytes(codec, all[g..], Seg(off, |all| - g - off, q == 0), k))
         == ChunksBytes(codec, all, Seg(0, |all|, true), q + k)
  {
    hide ChunkBytes, Cat;
    var seg, whole := Seg(off, |all| - g - off, q == 0), Seg(0, |all|, true);
    if k > 0 {
      RestChunks(codec, all, g, off, q, k - 1);
      RestChunk(codec, all, g, off, q, k - 1);
      CatAssoc(ChunksBytes(codec, all, whole, q), ChunksBytes(codec, all[g..], seg, k - 1),
               ChunkBytes(codec, all[g..], seg, k - 1));
    } else {
      CatNothing(ChunksBytes(codec, all, whole, q));
    }
  }

  /** The whole chunks of a track are its first chunks. */
  lemma {:induction false} WholesAreFirst<S>(codec: Codec<S>, all: seq<Frame>, q: nat)
    requires q > 0 ==> q * CHUNK_FRAMES + POSTROLL <= |all|
    ensures q <= ChunkCount(|all|) && ChunksBytes(codec, all, Seg(0, |all|, true), q) == Wholes(codec, all, q)
  {
    hide Window, Cat;
    if q > 0 { WholesAreFirst(codec, all, q - 1); }
  }
}
