/** The streaming encoder: decoded units come in, chunks go out as soon as their run-out is there. */
module FusedEncoding {
  import opened Bytes
  import opened Audio
  import opened AudioStream
  import Ranks

  /** A decoded unit: its samples, how many to drop in front, and for the first of a range the range's length. */
  datatype Decoded = Decoded(pcm: seq<Sample>, dropFront: nat, rangeLen: nat)

  /** What a unit adds to the track: no more than is left of its range. */
  function Emitted(u: Decoded, remaining: nat, ch: nat): (seq<Sample>, nat)
    requires ch > 0 && u.dropFront * ch <= |u.pcm|
  {
    var left := if u.rangeLen > 0 then u.rangeLen else remaining;
    var have := Div(|u.pcm|, ch) - u.dropFront;
    UnitHas(u, ch);
    var emit := if have < left then have else left;
    UnitPart(u, ch, emit);
    (u.pcm[u.dropFront * ch..(u.dropFront + emit) * ch], left - emit)
  }

  lemma UnitHas(u: Decoded, ch: nat)
    requires ch > 0 && u.dropFront * ch <= |u.pcm|
    ensures u.dropFront <= Div(|u.pcm|, ch)
  {
    var q := Div(|u.pcm|, ch);
    assert ch * q == q * ch;
    MulOrder(u.dropFront, q, ch);
  }

  lemma UnitPart(u: Decoded, ch: nat, emit: nat)
    requires ch > 0 && u.dropFront + emit <= Div(|u.pcm|, ch)
    ensures 0 <= u.dropFront * ch <= (u.dropFront + emit) * ch <= |u.pcm|
  {
    var q := Div(|u.pcm|, ch);
    assert ch * q == q * ch;
    MulOrder(u.dropFront + emit, q, ch);
    MulOrder(u.dropFront, u.dropFront + emit, ch);
  }

  ghost predicate UnitsOk(units: seq<Decoded>, ch: nat)
  {
    forall u :: 0 <= u < |units| ==> units[u].dropFront * ch <= |units[u].pcm|
  }

  /** The samples of the whole track. */
  function Track(units: seq<Decoded>, remaining: nat, ch: nat): seq<Sample>
    requires ch > 0 && UnitsOk(units, ch)
    decreases units
  {
    if |units| == 0 then []
    else
      var (pcm, left) := Emitted(units[0], remaining, ch);
      pcm + Track(units[1..], left, ch)
  }

  // ---- the buffer

  /** The buffer is what `all` holds from frame `g` on, and the chunks of the frames before `off` are out. */
  ghost predicate Buffered<S>(codec: Codec<S>, all: seq<Sample>, f: nat, buf: seq<Sample>, g: nat, off: nat, q: nat,
                              out: seq<byte>)
    requires f > 0
  {
    && Aligned(g, off, q) && g <= |Framed(all, f)| && 0 <= g * f <= |all| && buf == all[g * f..]
    && (q > 0 ==> q * CHUNK_FRAMES + POSTROLL <= |Framed(all, f)|)
    && Some(out) == Wholes(codec, Framed(all, f), q)
  }

  lemma BufferedNothing<S>(codec: Codec<S>, f: nat)
    requires f > 0
    ensures Buffered(codec, [], f, [], 0, 0, 0, [])
  {}

  lemma BufferedMore<S>(codec: Codec<S>, all: seq<Sample>, f: nat, buf: seq<Sample>, g: nat, off: nat, q: nat,
                        out: seq<byte>, more: seq<Sample>)
    requires f > 0 && Buffered(codec, all, f, buf, g, off, q, out)
    ensures Buffered(codec, all + more, f, buf + more, g, off, q, out)
  {
    hide Framed, Wholes;
    FramedMore(all, more, f);
    WholesMore(codec, Framed(all, f), Framed(all + more, f), q);
  }

  /** Enough is buffered for a segment of `p` chunks and its run-out. */
  lemma SegReady<S>(codec: Codec<S>, all: seq<Sample>, f: nat, buf: seq<Sample>, g: nat, off: nat, q: nat,
                    out: seq<byte>, p: nat)
    requires f > 0 && p > 0 && Buffered(codec, all, f, buf, g, off, q, out)
             && |buf| >= (off + p * CHUNK_FRAMES + POSTROLL) * f
    ensures var frames := Framed(buf, f);
            && off + p * CHUNK_FRAMES + POSTROLL <= |frames| && ChunkCount(p * CHUNK_FRAMES) == p
            && (q + p) * CHUNK_FRAMES + POSTROLL <= |Framed(all, f)|
            && Cat(Some(out), SegBytes(codec, frames, Seg(off, p * CHUNK_FRAMES, q == 0)))
               == Wholes(codec, Framed(all, f), q + p)
  {
    hide Framed, Wholes, ChunksBytes, Cat;
    EnoughFrames(buf, f, off + p * CHUNK_FRAMES + POSTROLL);
    FramedDrop(all, f, g);
    SegIsWholes(codec, Framed(all, f), g, off, q, p * CHUNK_FRAMES, p);
  }

  /** Out it goes, and all but the run-in before the next chunk is dropped. */
  lemma SegDone<S>(codec: Codec<S>, all: seq<Sample>, f: nat, buf: seq<Sample>, g: nat, off: nat, q: nat,
                   out: seq<byte>, p: nat, bytes: seq<byte>)
    requires f > 0 && p > 0 && Buffered(codec, all, f, buf, g, off, q, out)
    requires (q + p) * CHUNK_FRAMES + POSTROLL <= |Framed(all, f)|
    requires Cat(Some(out), Some(bytes)) == Wholes(codec, Framed(all, f), q + p)
    ensures var d := off + p * CHUNK_FRAMES - PREROLL;
            && 0 < d * f <= |buf| && Buffered(codec, all, f, buf[d * f..], g + d, PREROLL, q + p, out + bytes)
  {
    hide Framed, Wholes;
    var d := off + p * CHUNK_FRAMES - PREROLL;
    FramedDrop(all, f, g + d);
    assert (g + d) * f == g * f + d * f;
    MulOrder(1, d, f);
  }

  /** A failed chunk fails the whole track, whatever follows. */
  lemma {:induction false} FailedStays<S>(codec: Codec<S>, frames: seq<Frame>, seg: Seg, j: nat, k: nat)
    requires seg.off + seg.nkeep <= |frames| && j <= k <= ChunkCount(seg.nkeep)
             && ChunksBytes(codec, frames, seg, j) == None
    ensures ChunksBytes(codec, frames, seg, k) == None
    decreases k
  {
    hide ChunkBytes;
    if j < k { FailedStays(codec, frames, seg, j, k - 1); }
  }

  lemma EarlyFailure<S>(codec: Codec<S>, all: seq<Sample>, f: nat, m: nat, more: seq<Sample>)
    requires f > 0 && m > 0 && m * CHUNK_FRAMES + POSTROLL <= |Framed(all, f)|
             && Wholes(codec, Framed(all, f), m) == None
    ensures Batch(codec, all + more, f) == None && all + more != []
  {
    hide Framed, Wholes, ChunksBytes, Padded;
    var total := all + more;
    SomeFrames(all, f);
    FramedMore(all, more, f);
    PaddedMore(total, f);
    var frames := Framed(Padded(total, f), f);
    WholesMore(codec, Framed(all, f), frames, m);
    WholesAreFirst(codec, frames, m);
    FailedStays(codec, frames, Seg(0, |frames|, true), m, ChunkCount(|frames|));
  }

  lemma SomeFrames(all: seq<Sample>, f: nat)
    requires f > 0 && |Framed(all, f)| > 0
    ensures all != []
  {}

  lemma PaddedMore(pcm: seq<Sample>, f: nat)
    requires f > 0
    ensures Framed(pcm, f) <= Framed(Padded(pcm, f), f)
  {
    hide Framed, FrameCount;
    FramedMore(pcm, seq(FrameCount(pcm, f) * f - |pcm|, _ => 0), f);
  }

  lemma CountRest(n: nat, q: nat)
    requires n > q * CHUNK_FRAMES
    ensures ChunkCount(n) == q + ChunkCount(n - q * CHUNK_FRAMES)
  {}

  /** What is left when no more comes: with samples there is always a last segment, and it completes the track. */
  lemma Rest<S>(codec: Codec<S>, all: seq<Sample>, f: nat, buf: seq<Sample>, g: nat, off: nat, q: nat, out: seq<byte>)
    requires f > 0 && Buffered(codec, all, f, buf, g, off, q, out)
    ensures FrameCount(buf, f) > off <==> all != []
    ensures all == [] ==> out == []
    ensures FrameCount(buf, f) > off ==>
      var frames := Framed(Padded(buf, f), f);
      |frames| == FrameCount(buf, f) && Cat(Some(out), SegBytes(codec, frames, Seg(off, |frames| - off, q == 0)))
          == Batch(codec, all, f)
  {
    hide Framed, Wholes, ChunksBytes, Padded, FrameCount, Cat;
    PaddedDrop(all, f, g);
    PaddedCount(buf, f);
    PaddedCount(all, f);
    PaddedMore(all, f);
    var frames := Framed(Padded(all, f), f);
    NoFrames(all, f);
    EmptyTrack(codec, f);
    if FrameCount(buf, f) > off {
      WholesMore(codec, Framed(all, f), frames, q);
      WholesAreFirst(codec, frames, q);
      RestChunks(codec, frames, g, off, q, ChunkCount(|frames| - g - off));
      CountRest(|frames|, q);
    }
  }

  lemma NoFrames(all: seq<Sample>, f: nat)
    requires f > 0
    ensures FrameCount(all, f) == 0 <==> all == []
    ensures FrameCount(all, f) >= |Framed(all, f)|
  {
    hide Framed;
    var n := FrameCount(all, f);
    if n > 0 { MulOrder(1, n, f); }
    FramedCount(all, f);
    MulOrder(|Framed(all, f)|, n, f);
  }

  lemma EmptyTrack<S>(codec: Codec<S>, f: nat)
    requires f > 0
    ensures Framed([], f) == [] && Wholes(codec, Framed([], f), 0) == Some([])
  {}

  // ---- the encoder

  /**
   * Fed unit by unit, the streaming encoder writes what encoding the whole track at once writes,
   * for any number of threads, any split into units and any order in which the threads of each segment
   * finish; except that it writes nothing for a track without samples.
   */
  method FusedEncode<S>(codec: Codec<S>, units: seq<Decoded>, ch: nat, f: nat, nproc: nat,
                        order: (nat, nat) -> seq<nat>)
    returns (result: Option<seq<byte>>)
    requires ch > 0 && f > 0 && nproc > 0 && UnitsOk(units, ch) && forall s, k :: Ranks.Lists(order(s, k), k)
    ensures result == if Track(units, 0, ch) == [] then Some([]) else Batch(codec, Track(units, 0, ch), f)
  {
    hide Framed, Wholes, Buffered, Emitted, ChunksBytes, Batch, Padded, FrameCount, Cat;
    var seg := nproc * CHUNK_FRAMES;
    var buf: seq<Sample> := [];
    var encOff: nat, remaining: nat := 0, 0;
    var first, segs := true, 0;
    var out: seq<byte> := [];
    ghost var all: seq<Sample>, g: nat, q: nat := [], 0, 0;
    ghost var total := Track(units, 0, ch);
    BufferedNothing(codec, f);
    assert units[0..] == units;
    assert [] + total == total;
    for u := 0 to |units|
      invariant Buffered(codec, all, f, buf, g, encOff, q, out) && first == (q == 0)
      invariant UnitsOk(units[u..], ch) && all + Track(units[u..], remaining, ch) == total
    {
      var (pcm, left) := Emitted(units[u], remaining, ch);
      assert units[u..][0] == units[u] && units[u..][1..] == units[u + 1..];
      BufferedMore(codec, all, f, buf, g, encOff, q, out, pcm);
      assert (all + pcm) + Track(units[u + 1..], left, ch) == all + (pcm + Track(units[u + 1..], left, ch));
      all := all + pcm;
      buf := buf + pcm;
      remaining := left;
      ghost var later := Track(units[u + 1..], left, ch);
      while |buf| >= (encOff + seg + POSTROLL) * f
        invariant Buffered(codec, all, f, buf, g, encOff, q, out) && first == (q == 0)
        decreases |buf|
      {
        SegReady(codec, all, f, buf, g, encOff, q, out, nproc);
        var bytes := ParEncode(codec, Framed(buf, f), Seg(encOff, seg, first), order(segs, nproc));
        if bytes.None? {
          FailedCat(Some(out));
          EarlyFailure(codec, all, f, q + nproc, later);
          return None;
        }
        SegDone(codec, all, f, buf, g, encOff, q, out, nproc, bytes.value);
        out := out + bytes.value;
        first, segs := false, segs + 1;
        buf := buf[(encOff + seg - PREROLL) * f..];
        g := g + encOff + seg - PREROLL;
        q := q + nproc;
        encOff := PREROLL;
      }
    }
    assert all + [] == all;
    Rest(codec, all, f, buf, g, encOff, q, out);
    var bframes := FrameCount(buf, f);
    if bframes > encOff {
      var bytes := ParEncode(codec, Framed(Padded(buf, f), f), Seg(encOff, bframes - encOff, first),
                             order(segs, ChunkCount(bframes - encOff)));
      if bytes.None? {
        FailedCat(Some(out));
        return None;
      }
      CatBoth(out, bytes.value);
      out := out + bytes.value;
    }
    result := Some(out);
  }

  lemma FailedCat(a: Option<seq<byte>>)
    ensures Cat(a, None) == None
  {}

  lemma CatBoth(a: seq<byte>, b: seq<byte>)
    ensures Cat(Some(a), Some(b)) == Some(a + b)
  {}

  /** Streaming and batch differ exactly on the empty track, where the batch still writes the stream's head. */
  lemma DifferOnEmpty<S>(codec: Codec<S>, pcm: seq<Sample>, f: nat)
    requires f > 0
    ensures (if pcm == [] then Some([]) else Batch(codec, pcm, f)) == Batch(codec, pcm, f) <==> pcm != []
    ensures pcm == [] ==>
            Batch(codec, pcm, f) == (match codec.begin case None => None case Some(st) => Some(Packet(codec.head(st))))
  {
    if pcm == [] {
      NoFrames(pcm, f);
      PaddedCount(pcm, f);
      OneEmptyChunk(codec, Framed(Padded(pcm, f), f));
    }
  }

  lemma OneEmptyChunk<S>(codec: Codec<S>, frames: seq<Frame>)
    requires frames == []
    ensures SegBytes(codec, frames, Seg(0, 0, true))
            == match codec.begin case None => None case Some(st) => Some(Packet(codec.head(st)))
  {
    hide Packet;
    assert ChunkCount(0) == 1;
    assert ChunksBytes(codec, frames, Seg(0, 0, true), 0) == Some([]);
    CatNothing(ChunkBytes(codec, frames, Seg(0, 0, true), 0));
    if codec.begin.Some? {
      var h := Packet(codec.head(codec.begin.value));
      assert h + [] == h;
    }
  }
}
