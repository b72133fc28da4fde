/**
 * What each packet of a track was encoded from: the frames its chunk's encoder had been fed up to and
 * including its own.
 */
module AudioHistory {
  import opened Bytes
  import opened Audio
  import opened AudioStream

  /** An encoder by what it answers to the frames fed to it so far, the newest included. */
  datatype Encoder = Encoder(head: seq<byte>, fails: seq<Frame> -> bool, packet: seq<Frame> -> seq<byte>)

  /** The machine whose state is those frames. */
  function Recording(e: Encoder): Codec<seq<Frame>>
  {
    Codec(Some([]), _ => e.head,
          (s, f) => if e.fails(s + [f]) then None else Some((s + [f], e.packet(s + [f]))))
  }

  // ---- one chunk

  /** Fed frame by frame from `fs`, it fails at one of those behind `lo`. */
  ghost predicate FailsIn(e: Encoder, frames: seq<Frame>, fs: nat, lo: nat, hi: nat)
    requires fs <= lo <= hi <= |frames|
  {
    exists j :: lo < j <= hi && e.fails(frames[fs..j])
  }

  lemma FailsNext(e: Encoder, frames: seq<Frame>, fs: nat, lo: nat, hi: nat)
    requires fs <= lo < hi <= |frames|
    ensures FailsIn(e, frames, fs, lo, hi) <==> e.fails(frames[fs..lo + 1]) || FailsIn(e, frames, fs, lo + 1, hi)
  {}

  lemma FailsJoin(e: Encoder, frames: seq<Frame>, fs: nat, lo: nat, mid: nat, hi: nat)
    requires fs <= lo <= mid <= hi <= |frames|
    ensures FailsIn(e, frames, fs, lo, hi) <==> FailsIn(e, frames, fs, lo, mid) || FailsIn(e, frames, fs, mid, hi)
  {}

  lemma FramesOn(frames: seq<Frame>, fs: nat, lo: nat)
    requires fs <= lo < |frames|
    ensures frames[fs..lo] + [frames[lo]] == frames[fs..lo + 1]
  {}

  /** Frames fed with their packets dropped are in the encoder's history like any others. */
  lemma {:induction false} FedHistory(e: Encoder, frames: seq<Frame>, fs: nat, lo: nat, hi: nat)
    requires fs <= lo <= hi <= |frames|
    ensures Fed(Recording(e), frames[fs..lo], frames, lo, hi)
         == if FailsIn(e, frames, fs, lo, hi) then None else Some(frames[fs..hi])
    decreases hi - lo
  {
    hide FailsIn;
    if lo < hi {
      FramesOn(frames, fs, lo);
      FailsNext(e, frames, fs, lo, hi);
      FedHistory(e, frames, fs, lo + 1, hi);
    } else {
      NoFailure(e, frames, fs, lo);
    }
  }

  lemma NoFailure(e: Encoder, frames: seq<Frame>, fs: nat, lo: nat)
    requires fs <= lo <= |frames|
    ensures !FailsIn(e, frames, fs, lo, lo)
  {}

  /** The packets of frames [lo, hi) of an encoder started at `fs`. */
  function Packets(e: Encoder, frames: seq<Frame>, fs: nat, lo: nat, hi: nat): seq<byte>
    requires fs <= lo <= hi <= |frames|
  {
    if lo == hi then [] else Packets(e, frames, fs, lo, hi - 1) + Packet(e.packet(frames[fs..hi]))
  }

  lemma {:induction false} PacketsFirst(e: Encoder, frames: seq<Frame>, fs: nat, lo: nat, hi: nat)
    requires fs <= lo < hi <= |frames|
    ensures Packets(e, frames, fs, lo, hi) == Packet(e.packet(frames[fs..lo + 1])) + Packets(e, frames, fs, lo + 1, hi)
    decreases hi
  {
    hide Packet;
    if lo + 1 < hi {
      PacketsFirst(e, frames, fs, lo, hi - 1);
    } else {
      assert Packets(e, frames, fs, lo, lo) == [] && Packets(e, frames, fs, hi, hi) == [];
    }
  }

  lemma {:induction false} KeptHistory(e: Encoder, frames: seq<Frame>, fs: nat, lo: nat, hi: nat)
    requires fs <= lo <= hi <= |frames|
    ensures Kept(Recording(e), frames[fs..lo], frames, lo, hi)
         == if FailsIn(e, frames, fs, lo, hi) then None else Some((frames[fs..hi], Packets(e, frames, fs, lo, hi)))
    decreases hi - lo
  {
    hide FailsIn, Packet;
    if lo < hi {
      hide Packets;
      FramesOn(frames, fs, lo);
      FailsNext(e, frames, fs, lo, hi);
      PacketsFirst(e, frames, fs, lo, hi);
      KeptHistory(e, frames, fs, lo + 1, hi);
    } else {
      NoFailure(e, frames, fs, lo);
    }
  }

  /** It fails at any frame fed, run-in and run-out too; otherwise every kept packet has its whole history. */
  lemma WindowHistory(e: Encoder, frames: seq<Frame>, fs: nat, ks: nat, ke: nat, fe: nat, head: bool)
    requires fs <= ks <= ke <= fe <= |frames|
    ensures Window(Recording(e), frames, fs, ks, ke, fe, head)
         == if FailsIn(e, frames, fs, fs, fe) then None
            else Some((if head then Packet(e.head) else []) + Packets(e, frames, fs, ks, ke))
  {
    hide FailsIn, Packet, Packets, Fed, Kept;
    assert frames[fs..fs] == [];
    FedHistory(e, frames, fs, fs, ks);
    KeptHistory(e, frames, fs, ks, ke);
    FedHistory(e, frames, fs, ke, fe);
    FailsJoin(e, frames, fs, fs, ks, fe);
    FailsJoin(e, frames, fs, ks, ke, fe);
  }

  /** The first frame chunk `c` of a track feeds: 25 before its own, or the track's first. */
  function RunIn(c: nat): nat { if 500 * c < 25 then 0 else 500 * c - 25 }

  /** The end of the frames chunk `c` of `n` keeps, and of those it feeds: two more, or all. */
  function KeptTo(c: nat, n: nat): nat { if 500 * c + 500 < n then 500 * c + 500 else n }

  function FedTo(c: nat, n: nat): nat { if KeptTo(c, n) + 2 < n then KeptTo(c, n) + 2 else n }

  ghost predicate ChunkFails(e: Encoder, frames: seq<Frame>, c: nat)
  {
    exists j :: RunIn(c) < j <= FedTo(c, |frames|) && e.fails(frames[RunIn(c)..j])
  }

  lemma ChunkHistory(e: Encoder, frames: seq<Frame>, c: nat, head: bool)
    requires 500 * c <= |frames|
    ensures ChunkBytes(Recording(e), frames, Seg(0, |frames|, head), c)
         == if ChunkFails(e, frames, c) then None
            else Some((if head && c == 0 then Packet(e.head) else [])
                      + Packets(e, frames, RunIn(c), 500 * c, KeptTo(c, |frames|)))
  {
    hide Packet, Packets, Window;
    WindowHistory(e, frames, RunIn(c), 500 * c, KeptTo(c, |frames|), FedTo(c, |frames|), head && c == 0);
  }

  /** Every frame kept by a segment is kept by exactly one of its chunks. */
  lemma KeptOnce(seg: Seg, i: nat, c: nat)
    requires seg.off <= i < seg.off + seg.nkeep
    ensures c < ChunkCount(seg.nkeep) && KeepStart(seg, c) <= i < KeepEnd(seg, c) <==> c == (i - seg.off) / 500
  {
    var d := (i - seg.off) / 500;
    assert 500 * d <= i - seg.off < 500 * d + 500;
  }

  // ---- the track

  /** What packet `i` of a track is encoded from. */
  function History(frames: seq<Frame>, i: nat): seq<Frame>
    requires i < |frames|
  {
    frames[RunIn(i / 500)..i + 1]
  }

  function TrackPackets(e: Encoder, frames: seq<Frame>, n: nat): seq<byte>
    requires n <= |frames|
  {
    if n == 0 then [] else TrackPackets(e, frames, n - 1) + Packet(e.packet(History(frames, n - 1)))
  }

  lemma {:induction false} ChunkJoins(e: Encoder, frames: seq<Frame>, c: nat, hi: nat)
    requires 500 * c <= hi <= |frames| && hi <= 500 * c + 500
    ensures TrackPackets(e, frames, 500 * c) + Packets(e, frames, RunIn(c), 500 * c, hi) == TrackPackets(e, frames, hi)
    decreases hi
  {
    hide Packet;
    if 500 * c < hi {
      ChunkJoins(e, frames, c, hi - 1);
      assert (hi - 1) / 500 == c;
    }
  }

  lemma {:induction false} ChunksHistory(e: Encoder, frames: seq<Frame>, k: nat)
    requires 0 < k <= ChunkCount(|frames|)
    ensures ChunksBytes(Recording(e), frames, Seg(0, |frames|, true), k)
         == if exists c :: 0 <= c < k && ChunkFails(e, frames, c) then None
            else Some(Packet(e.head) + TrackPackets(e, frames, KeptTo(k - 1, |frames|)))
  {
    hide Packet, Packets, ChunkBytes, ChunkFails, TrackPackets;
    ChunkHistory(e, frames, k - 1, true);
    ChunkJoins(e, frames, k - 1, KeptTo(k - 1, |frames|));
    if k > 1 {
      ChunksHistory(e, frames, k - 1);
      assert KeptTo(k - 2, |frames|) == 500 * (k - 1);
      var own := Packets(e, frames, RunIn(k - 1), 500 * (k - 1), KeptTo(k - 1, |frames|));
      assert [] + own == own;
      Assoc(Packet(e.head), TrackPackets(e, frames, 500 * (k - 1)), own);
    } else {
      NoPackets(e, frames);
      var own := Packets(e, frames, RunIn(0), 0, KeptTo(0, |frames|));
      assert [] + own == own;
      CatNothing(ChunkBytes(Recording(e), frames, Seg(0, |frames|, true), 0));
      assert ChunksBytes(Recording(e), frames, Seg(0, |frames|, true), 0) == Some([]);
    }
  }

  lemma Assoc(a: seq<byte>, b: seq<byte>, c: seq<byte>)
    ensures (a + b) + c == a + (b + c)
  {}

  lemma NoPackets(e: Encoder, frames: seq<Frame>)
    ensures TrackPackets(e, frames, 0) == []
  {}

  /**
   * The octets of a track: its head, then the packet of every frame, encoded from its chunk's run-in on;
   * none at all exactly when some chunk's encoder fails at a frame it is fed.
   */
  lemma BatchHistory(e: Encoder, pcm: seq<Sample>, f: nat)
    requires f > 0
    ensures var frames := Framed(Padded(pcm, f), f);
            Batch(Recording(e), pcm, f) ==
              if exists c :: 0 <= c < ChunkCount(|frames|) && ChunkFails(e, frames, c) then None
              else Some(Packet(e.head) + TrackPackets(e, frames, |frames|))
  {
    hide Packet, ChunksBytes, ChunkFails, TrackPackets, Framed, Padded;
    var frames := Framed(Padded(pcm, f), f);
    ChunksHistory(e, frames, ChunkCount(|frames|));
  }

  // ---- any machine

  /** What a machine comes to when fed `h`: its state, and the packet of the last frame. */
  function Answer<S>(codec: Codec<S>, st0: S, h: seq<Frame>): Option<(S, seq<byte>)>
  {
    if |h| == 0 then Some((st0, []))
    else
      match Answer(codec, st0, h[..|h| - 1])
      case None => None
      case Some((st, _)) => codec.encode(st, h[|h| - 1])
  }

  /** The machine by its answers. */
  function Told<S>(codec: Codec<S>, st0: S): Encoder
  {
    Encoder(codec.head(st0), h => Answer(codec, st0, h).None?,
            h => match Answer(codec, st0, h) case None => [] case Some((_, p)) => p)
  }

  lemma AnswerNext<S>(codec: Codec<S>, st0: S, h: seq<Frame>, f: Frame)
    requires Answer(codec, st0, h).Some?
    ensures Answer(codec, st0, h + [f]) == codec.encode(Answer(codec, st0, h).value.0, f)
  {
    assert (h + [f])[..|h|] == h;
  }

  lemma {:induction false} FedTold<S>(codec: Codec<S>, st0: S, h: seq<Frame>, frames: seq<Frame>, lo: nat, hi: nat)
    requires lo <= hi <= |frames| && Answer(codec, st0, h).Some?
    ensures var a, b := Fed(codec, Answer(codec, st0, h).value.0, frames, lo, hi),
                        Fed(Recording(Told(codec, st0)), h, frames, lo, hi);
            (a.None? <==> b.None?) && (a.Some? ==>
                                       Answer(codec, st0, b.value).Some?
                                           && Answer(codec, st0, b.value).value.0 == a.value)
    decreases hi - lo
  {
    hide Answer;
    if lo < hi {
      AnswerNext(codec, st0, h, frames[lo]);
      if Answer(codec, st0, h + [frames[lo]]).Some? { FedTold(codec, st0, h + [frames[lo]], frames, lo + 1, hi); }
    }
  }

  lemma {:induction false} KeptTold<S>(codec: Codec<S>, st0: S, h: seq<Frame>, frames: seq<Frame>, lo: nat, hi: nat)
    requires lo <= hi <= |frames| && Answer(codec, st0, h).Some?
    ensures var a, b := Kept(codec, Answer(codec, st0, h).value.0, frames, lo, hi),
                        Kept(Recording(Told(codec, st0)), h, frames, lo, hi);
            && (a.None? <==> b.None?)
            && (a.Some? ==> a.value.1 == b.value.1
                            && Answer(codec, st0, b.value.0).Some?
                               && Answer(codec, st0, b.value.0).value.0 == a.value.0)
    decreases hi - lo
  {
    hide Answer, Packet;
    if lo < hi {
      AnswerNext(codec, st0, h, frames[lo]);
      if Answer(codec, st0, h + [frames[lo]]).Some? { KeptTold(codec, st0, h + [frames[lo]], frames, lo + 1, hi); }
    }
  }

  lemma AnswerNone<S>(codec: Codec<S>, st0: S)
    ensures Answer(codec, st0, []) == Some((st0, []))
  {}

  /** A machine writes what its answers to what it was fed say. */
  lemma WindowTold<S>(codec: Codec<S>, frames: seq<Frame>, fs: nat, ks: nat, ke: nat, fe: nat, head: bool)
    requires fs <= ks <= ke <= fe <= |frames| && codec.begin.Some?
    ensures Window(codec, frames, fs, ks, ke, fe, head)
         == Window(Recording(Told(codec, codec.begin.value)), frames, fs, ks, ke, fe, head)
  {
    hide Answer, Packet, Fed, Kept;
    var st0 := codec.begin.value;
    var r := Recording(Told(codec, st0));
    AnswerNone(codec, st0);
    FedTold(codec, st0, [], frames, fs, ks);
    var h1 := Fed(r, [], frames, fs, ks);
    if h1.Some? {
      KeptTold(codec, st0, h1.value, frames, ks, ke);
      var h2 := Kept(r, h1.value, frames, ks, ke);
      if h2.Some? { FedTold(codec, st0, h2.value.0, frames, ke, fe); }
    }
  }

  lemma {:induction false} ChunksTold<S>(codec: Codec<S>, frames: seq<Frame>, seg: Seg, k: nat)
    requires seg.off + seg.nkeep <= |frames| && k <= ChunkCount(seg.nkeep) && codec.begin.Some?
    ensures ChunksBytes(codec, frames, seg, k) == ChunksBytes(Recording(Told(codec, codec.begin.value)), frames, seg, k)
  {
    hide Window, Cat;
    if k > 0 {
      ChunksTold(codec, frames, seg, k - 1);
      var start, end := KeepStart(seg, k - 1), KeepEnd(seg, k - 1);
      WindowTold(codec, frames, Sat(start, PREROLL), start, end, Min(end + POSTROLL, |frames|), seg.head && k - 1 == 0);
    }
  }

  /** So for any encoder that can be made. */
  lemma BatchTold<S>(codec: Codec<S>, pcm: seq<Sample>, f: nat)
    requires f > 0 && codec.begin.Some?
    ensures Batch(codec, pcm, f) == Batch(Recording(Told(codec, codec.begin.value)), pcm, f)
  {
    hide Framed, Padded, ChunksBytes;
    var frames := Framed(Padded(pcm, f), f);
    ChunksTold(codec, frames, Seg(0, |frames|, true), ChunkCount(|frames|));
  }
}
