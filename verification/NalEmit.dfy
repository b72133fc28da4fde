/** Collecting a chunk's NAL units into frames, holding back its parameter sets. */
module NalEmit {
  import opened Bytes
  import opened Ranges
  import opened NalStates
  import opened FrameContents

  class Emit {
    var arena: seq<ByteRange>
    var nals: seq<ByteRange>
    var displays: seq<nat>
    var rec: seq<seq<byte>>
    var varies: seq<bool>
    var first: seq<ByteRange>
    var frame0: nat
    var nal0: nat
    var size: nat

    constructor ()
      ensures Now() == State([], [], [], [[], [], []], [false, false, false], [NOTHING, NOTHING, NOTHING], 0, 0, 0)
    {
      arena, nals, displays := [], [], [];
      rec, varies, first := [[], [], []], [false, false, false], [NOTHING, NOTHING, NOTHING];
      frame0, nal0, size := 0, 0, 0;
    }

    function Now(): State
      reads this
    {
      State(arena, nals, displays, rec, varies, first, frame0, nal0, size)
    }

    method BeginChunk(vary: bool)
      requires Sound(Now())
      modifies this
      ensures Now() == Begin(old(Now()), vary)
    {
      if vary { first := [NOTHING, NOTHING, NOTHING]; }
      frame0, nal0, size := |arena|, |nals|, 0;
    }

    method AddNal(nal: seq<byte>, off: nat)
      modifies this
      ensures Now() == Add(old(Now()), Unit(nal, off, None))
    {
      nals := nals + [ByteRange(off, |nal|)];
      size := size + 4 + |nal|;
    }

    method PushNal(u: Unit, codec: Codec, vary: bool)
      requires Sound(Now()) && (codec(u.nal).Param? ==> codec(u.nal).k < 3)
      modifies this
      ensures Now() == Push(old(Now()), u, codec, vary)
    {
      match codec(u.nal)
      case Drop =>
      case Param(k) =>
        if !vary {
          if rec[k] == [] { rec := rec[k := u.nal]; }
          return;
        }
        if first[k].len != 0 {
          varies := varies[k := true];
          AddNal(u.nal, u.off);
          return;
        }
        first := first[k := ByteRange(u.off, |u.nal|)];
        if rec[k] == [] { rec := rec[k := u.nal]; } else if rec[k] != u.nal { varies := varies[k := true]; }
      case Prefix => AddNal(u.nal, u.off);
      case Vcl =>
        AddNal(u.nal, u.off);
        var display := match u.poc case Some(p) => p % U32_LIMIT case None => (|arena| - frame0) % U32_LIMIT;
        arena := arena + [ByteRange(|nals| - nal0, size)];
        displays := displays + [display];
        nal0, size := |nals|, 0;
    }

    /** All units of one chunk: every slice gets a frame that ends with it. */
    method PushChunk(units: seq<Unit>, codec: Codec, vary: bool)
      requires Sound(Now()) && UnitsOk(units, codec)
      modifies this
      ensures Now() == PushAll(Begin(old(Now()), vary), units, codec, vary)
      ensures FramesShow(old(Now()), Now(), codec, units, vary)
    {
      hide FramesShow;
      ChunkShows(Now(), units, codec, vary);
      BeginChunk(vary);
      ghost var s := Now();
      for i := 0 to |units|
        invariant UnitsOk(units[..i], codec) && Now() == PushAll(s, units[..i], codec, vary)
      {
        assert units[..i + 1][..i] == units[..i];
        PushNal(units[i], codec, vary);
      }
      assert units[..|units|] == units;
    }
  }
}
