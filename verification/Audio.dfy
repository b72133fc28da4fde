/**
 * Encoding one audio track in chunks, each from a fresh encoder with some frames of run-in and run-out
 * whose packets are dropped. The encoder is any deterministic machine that may fail.
 */
module Audio {
  import opened Bytes
  import Ranks

  const CHUNK_FRAMES: nat := 500
  const PREROLL: nat := 25
  const POSTROLL: nat := 2

  /** One sample of one channel. */
  type Sample = int
  type Frame = seq<Sample>

  /** A fresh encoder's state if one can be made, its stream head, and its step. */
  datatype Codec<!S> = Codec(begin: Option<S>, head: S -> seq<byte>, encode: (S, Frame) -> Option<(S, seq<byte>)>)

  /** A length in two octets, low first, then the packet. */
  function Packet(p: seq<byte>): seq<byte> { [|p| % 256, (|p| / 256) % 256] + p }

  // ---- one chunk

  /** The encoder after frames [lo, hi), their packets dropped. */
  function Fed<S>(codec: Codec<S>, st: S, frames: seq<Frame>, lo: nat, hi: nat): Option<S>
    requires lo <= hi <= |frames|
    decreases hi - lo
  {
    if lo == hi then Some(st)
    else
      match codec.encode(st, frames[lo])
      case None => None
      case Some((next, _)) => Fed(codec, next, frames, lo + 1, hi)
  }

  /** The encoder after frames [lo, hi), and their packets. */
  function Kept<S>(codec: Codec<S>, st: S, frames: seq<Frame>, lo: nat, hi: nat): Option<(S, seq<byte>)>
    requires lo <= hi <= |frames|
    decreases hi - lo
  {
    if lo == hi then Some((st, []))
    else
      match codec.encode(st, frames[lo])
      case None => None
      case Some((next, p)) =>
        match Kept(codec, next, frames, lo + 1, hi)
        case None => None
        case Some((last, rest)) => Some((last, Packet(p) + rest))
  }

  /** The packets of frames [keepStart, keepEnd), the encoder run in from `fedStart` and out to `fedEnd`. */
  function Window<S>(codec: Codec<S>, frames: seq<Frame>, fedStart: nat, keepStart: nat, keepEnd: nat, fedEnd: nat,
                     head: bool): Option<seq<byte>>
    requires fedStart <= keepStart <= keepEnd <= fedEnd <= |frames|
  {
    match codec.begin
    case None => None
    case Some(st0) =>
      match Fed(codec, st0, frames, fedStart, keepStart)
      case None => None
      case Some(st1) =>
        match Kept(codec, st1, frames, keepStart, keepEnd)
        case None => None
        case Some((st2, out)) =>
          match Fed(codec, st2, frames, keepEnd, fedEnd)
          case None => None
          case Some(_) => Some((if head then Packet(codec.head(st0)) else []) + out)
  }

  function Min(a: int, b: int): int { if a < b then a else b }

  function Sat(a: nat, b: nat): nat { if a < b then 0 else a - b }

  /** Which frames a run of chunks keeps, counted from `off`. */
  datatype Seg = Seg(off: nat, nkeep: nat, head: bool)

  function KeepStart(seg: Seg, c: nat): nat { seg.off + c * CHUNK_FRAMES }

  function KeepEnd(seg: Seg, c: nat): nat { Min(seg.off + (c + 1) * CHUNK_FRAMES, seg.off + seg.nkeep) }

  /** Chunk `c` starts within what is kept, or is the lone chunk of nothing. */
  predicate ChunkIn(seg: Seg, c: nat, total: nat) { c * CHUNK_FRAMES <= seg.nkeep && seg.off + seg.nkeep <= total }

  /** `encode_chunk` on frames. */
  function ChunkBytes<S>(codec: Codec<S>, frames: seq<Frame>, seg: Seg, c: nat): Option<seq<byte>>
    requires ChunkIn(seg, c, |frames|)
  {
    var start, end := KeepStart(seg, c), KeepEnd(seg, c);
    Window(codec, frames, Sat(start, PREROLL), start, end, Min(end + POSTROLL, |frames|), seg.head && c == 0)
  }

  /** A run's outcome with `out` already written. */
  function Behind<S>(out: seq<byte>, r: Option<(S, seq<byte>)>): Option<(S, seq<byte>)>
  {
    match r case None => None case Some((last, rest)) => Some((last, out + rest))
  }

  lemma BehindNothing<S>(r: Option<(S, seq<byte>)>)
    ensures Behind([], r) == r
  {
    if r.Some? { assert [] + r.value.1 == r.value.1; }
  }

  lemma BehindOn<S>(codec: Codec<S>, st: S, frames: seq<Frame>, i: nat, to: nat, out: seq<byte>)
    requires i < to <= |frames|
    ensures var e := codec.encode(st, frames[i]);
            && (e.None? ==> Behind(out, Kept(codec, st, frames, i, to)) == None)
            && (e.Some? ==>
                  Behind(out, Kept(codec, st, frames, i, to))
                  == Behind(out + Packet(e.value.1), Kept(codec, e.value.0, frames, i + 1, to)))
  {
    hide Packet;
    var e := codec.encode(st, frames[i]);
    if e.Some? {
      var rest := Kept(codec, e.value.0, frames, i + 1, to);
      if rest.Some? { assert (out + Packet(e.value.1)) + rest.value.1 == out + (Packet(e.value.1) + rest.value.1); }
    }
  }

  /** The packets of frames [from, to), and the encoder after them. */
  method EncodeRun<S>(codec: Codec<S>, st0: S, frames: seq<Frame>, from: nat, to: nat)
    returns (r: Option<(S, seq<byte>)>)
    requires from <= to <= |frames|
    ensures r == Kept(codec, st0, frames, from, to)
  {
    hide Behind, Packet;
    var st, out := st0, [];
    var i := from;
    BehindNothing(Kept(codec, st0, frames, from, to));
    while i < to
      invariant from <= i <= to && Kept(codec, st0, frames, from, to) == Behind(out, Kept(codec, st, frames, i, to))
    {
      BehindOn(codec, st, frames, i, to, out);
      var e := codec.encode(st, frames[i]);
      if e.None? { return None; }
      out := out + Packet(e.value.1);
      st := e.value.0;
      i := i + 1;
    }
    BehindAll(st, out);
    r := Some((st, out));
  }

  lemma BehindAll<S>(st: S, out: seq<byte>)
    ensures Behind(out, Some((st, []))) == Some((st, out))
  {
    assert out + [] == out;
  }

  method FeedRun<S>(codec: Codec<S>, st0: S, frames: seq<Frame>, from: nat, to: nat) returns (r: Option<S>)
    requires from <= to <= |frames|
    ensures r == Fed(codec, st0, frames, from, to)
  {
    var st := st0;
    var i := from;
    while i < to
      invariant from <= i <= to && Fed(codec, st0, frames, from, to) == Fed(codec, st, frames, i, to)
    {
      var e := codec.encode(st, frames[i]);
      if e.None? { return None; }
      st := e.value.0;
      i := i + 1;
    }
    r := Some(st);
  }

  method EncodeWindow<S>(codec: Codec<S>, frames: seq<Frame>, fedStart: nat, keepStart: nat, keepEnd: nat, fedEnd: nat,
                         head: bool)
    returns (out: Option<seq<byte>>)
    requires fedStart <= keepStart <= keepEnd <= fedEnd <= |frames|
    ensures out == Window(codec, frames, fedStart, keepStart, keepEnd, fedEnd, head)
  {
    hide Fed, Kept, Packet;
    if codec.begin.None? { return None; }
    var h := if head then Packet(codec.head(codec.begin.value)) else [];
    var ready := FeedRun(codec, codec.begin.value, frames, fedStart, keepStart);
    if ready.None? { return None; }
    var kept := EncodeRun(codec, ready.value, frames, keepStart, keepEnd);
    if kept.None? { return None; }
    var rest := FeedRun(codec, kept.value.0, frames, keepEnd, fedEnd);
    if rest.None? { return None; }
    out := Some(h + kept.value.1);
  }

  method EncodeChunk<S>(codec: Codec<S>, frames: seq<Frame>, c: nat, seg: Seg) returns (out: Option<seq<byte>>)
    requires ChunkIn(seg, c, |frames|)
    ensures out == ChunkBytes(codec, frames, seg, c)
  {
    hide Window;
    var keepStart := seg.off + c * CHUNK_FRAMES;
    var keepEnd := Min(seg.off + (c + 1) * CHUNK_FRAMES, seg.off + seg.nkeep);
    var fedStart := Sat(keepStart, PREROLL);
    var fedEnd := Min(keepEnd + POSTROLL, |frames|);
    out := EncodeWindow(codec, frames, fedStart, keepStart, keepEnd, fedEnd, seg.head && c == 0);
  }

  // ---- a run of chunks

  /** Both, or a failure. */
  function Cat(a: Option<seq<byte>>, b: Option<seq<byte>>): Option<seq<byte>>
  {
    if a.Some? && b.Some? then Some(a.value + b.value) else None
  }

  /** Chunks kept by a segment, at least one. */
  function ChunkCount(nkeep: nat): (k: nat)
    ensures k >= 1 && (k - 1) * CHUNK_FRAMES <= nkeep <= k * CHUNK_FRAMES
  {
    var k := (nkeep + CHUNK_FRAMES - 1) / CHUNK_FRAMES;
    if k < 1 then 1 else k
  }

  /** The first `k` chunks of a segment. */
  function ChunksBytes<S>(codec: Codec<S>, frames: seq<Frame>, seg: Seg, k: nat): Option<seq<byte>>
    requires seg.off + seg.nkeep <= |frames| && k <= ChunkCount(seg.nkeep)
  {
    if k == 0 then Some([])
    else Cat(ChunksBytes(codec, frames, seg, k - 1), ChunkBytes(codec, frames, seg, k - 1))
  }

  function SegBytes<S>(codec: Codec<S>, frames: seq<Frame>, seg: Seg): Option<seq<byte>>
    requires seg.off + seg.nkeep <= |frames|
  {
    ChunksBytes(codec, frames, seg, ChunkCount(seg.nkeep))
  }

  /** All results in index order. */
  function Collected(results: seq<Option<seq<byte>>>): Option<seq<byte>>
  {
    if |results| == 0 then Some([]) else Cat(Collected(results[..|results| - 1]), results[|results| - 1])
  }

  lemma {:induction false} CollectedIs<S>(codec: Codec<S>, frames: seq<Frame>, seg: Seg,
                                          results: seq<Option<seq<byte>>>)
    requires seg.off + seg.nkeep <= |frames| && |results| <= ChunkCount(seg.nkeep)
    requires forall c :: 0 <= c < |results| ==>
             ChunkIn(seg, c, |frames|) && results[c] == ChunkBytes(codec, frames, seg, c)
    ensures Collected(results) == ChunksBytes(codec, frames, seg, |results|)
    decreases results
  {
    hide ChunkBytes, Cat;
    if |results| > 0 { CollectedIs(codec, frames, seg, results[..|results| - 1]); }
  }

  /**
   * Threads take chunk numbers from a counter and finish in any order; results are joined by number,
   * so the order does not show.
   */
  method ParEncode<S>(codec: Codec<S>, frames: seq<Frame>, seg: Seg, order: seq<nat>) returns (out: Option<seq<byte>>)
    requires seg.off + seg.nkeep <= |frames| && Ranks.Lists(order, ChunkCount(seg.nkeep))
    ensures out == SegBytes(codec, frames, seg)
  {
    hide ChunkBytes, ChunksBytes, Collected;
    var k := ChunkCount(seg.nkeep);
    var results := seq(k, _ => None);
    for i := 0 to k
      invariant |results| == k
      invariant forall j :: 0 <= j < i ==> Ran(codec, frames, seg, results, order[j])
    {
      assert order[i] <= k - 1;
      var r := EncodeChunk(codec, frames, order[i], seg);
      results := results[order[i] := r];
    }
    AllRan(codec, frames, seg, results, order);
    CollectedIs(codec, frames, seg, results);
    out := Collected(results);
  }

  /** Chunk `c` has its result. */
  ghost predicate Ran<S>(codec: Codec<S>, frames: seq<Frame>, seg: Seg, results: seq<Option<seq<byte>>>, c: nat)
  {
    ChunkIn(seg, c, |frames|) && c < |results| && results[c] == ChunkBytes(codec, frames, seg, c)
  }

  lemma AllRan<S>(codec: Codec<S>, frames: seq<Frame>, seg: Seg, results: seq<Option<seq<byte>>>, order: seq<nat>)
    requires |results| == |order| && Ranks.Lists(order, |order|)
    requires forall j :: 0 <= j < |order| ==> Ran(codec, frames, seg, results, order[j])
    ensures forall c :: 0 <= c < |results| ==>
            ChunkIn(seg, c, |frames|) && results[c] == ChunkBytes(codec, frames, seg, c)
  {
    hide ChunkBytes, ChunkIn;
    forall c | 0 <= c < |results| ensures ChunkIn(seg, c, |frames|) && results[c] == ChunkBytes(codec, frames, seg, c) {
      assert c in order;
      var j :| 0 <= j < |order| && order[j] == c;
      assert Ran(codec, frames, seg, results, order[j]);
    }
  }
}
