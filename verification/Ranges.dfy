/** Octet ranges into a source buffer, and frames assembled from NAL units. */
module Ranges {
  import opened Bytes

  datatype ByteRange = ByteRange(offset: nat, len: nat)

  predicate InRange(r: ByteRange, src: seq<byte>) { r.offset + r.len <= |src| }

  function Slice(r: ByteRange, src: seq<byte>): (s: seq<byte>)
    requires InRange(r, src)
    ensures |s| == r.len
  {
    src[r.offset..r.offset + r.len]
  }

  /** Each NAL behind its length in four octets. */
  function NalBytes(nals: seq<ByteRange>, src: seq<byte>): (s: seq<byte>)
    requires forall r :: r in nals ==> InRange(r, src)
    ensures |s| == NalOctets(nals)
  {
    if |nals| == 0 then []
    else
      var last := nals[|nals| - 1];
      NalBytes(nals[..|nals| - 1], src) + (BeBytes(last.len, 4) + Slice(last, src))
  }

  function NalOctets(nals: seq<ByteRange>): nat
  {
    if |nals| == 0 then 0 else NalOctets(nals[..|nals| - 1]) + (4 + nals[|nals| - 1].len)
  }

  lemma {:induction false} NalOctetsMono(nals: seq<ByteRange>, k: nat)
    requires k <= |nals|
    ensures NalOctets(nals[..k]) <= NalOctets(nals)
    ensures k < |nals| ==> NalOctets(nals[..k]) + 4 + nals[k].len <= NalOctets(nals)
    decreases |nals| - k
  {
    if k < |nals| {
      assert nals[..k + 1][..k] == nals[..k];
      NalOctetsMono(nals, k + 1);
    } else {
      assert nals[..k] == nals;
    }
  }

  /** NAL units of the frames before frame `i`; a frame's offset counts its own. */
  function NalStart(frames: seq<ByteRange>, i: nat): nat
    requires i <= |frames|
  {
    if i == 0 then 0 else NalStart(frames, i - 1) + frames[i - 1].offset
  }

  /** Frame `i` is a run of units, directly behind the previous frame's, each behind four octets of length. */
  ghost predicate FrameHolds(frames: seq<ByteRange>, nals: seq<ByteRange>, i: nat)
    requires i < |frames|
  {
    var start := NalStart(frames, i);
    start + frames[i].offset <= |nals| && frames[i].len == NalOctets(nals[start..start + frames[i].offset])
  }
}
