/** Reading an encoded track back: its head and where its packets are. */
module OpusStreams {
  import opened Bytes
  import opened Ranges
  import opened Audio
  import opened AudioStream
  import opened AudioHistory

  /** Two octets, the low one first. */
  function Word(low: nat, high: nat): nat { low + 0x100 * high }

  /** From `pos` to its end the buffer is these parts, each behind its length in two octets, the low one first. */
  ghost predicate Holds(buf: seq<byte>, pos: nat, parts: seq<seq<byte>>)
    decreases |parts|
  {
    if |parts| == 0 then pos == |buf|
    else
      var n := |parts[0]|;
      && pos + 2 + n <= |buf| && Word(buf[pos], buf[pos + 1]) == n && buf[pos + 2..pos + 2 + n] == parts[0]
      && Holds(buf, pos + 2 + n, parts[1..])
  }

  /** `opus::read`: the first part is the stream's head, every other one a packet. */
  method Read(buf: seq<byte>, ghost parts: seq<seq<byte>>) returns (head: seq<byte>, packets: seq<ByteRange>)
    requires |parts| > 0 && Holds(buf, 0, parts)
    ensures head == parts[0] && |packets| == |parts| - 1
    ensures forall i :: 0 <= i < |packets| ==> InRange(packets[i], buf) && Slice(packets[i], buf) == parts[i + 1]
  {
    var hl := Word(buf[0], buf[1]);
    head := buf[2..2 + hl];
    packets := [];
    var pos := 2 + hl;
    while pos < |buf|
      invariant 0 <= pos <= |buf| && |packets| < |parts| && Holds(buf, pos, parts[|packets| + 1..])
      invariant forall i :: 0 <= i < |packets| ==> InRange(packets[i], buf) && Slice(packets[i], buf) == parts[i + 1]
      decreases |buf| - pos
    {
      ghost var rest := parts[|packets| + 1..];
      assert |rest| > 0 && rest[0] == parts[|packets| + 1] && rest[1..] == parts[|packets| + 2..];
      var len := Word(buf[pos], buf[pos + 1]);
      pos := pos + 2;
      packets := packets + [ByteRange(pos, len)];
      pos := pos + len;
    }
    AtEnd(buf, pos, parts[|packets| + 1..]);
  }

  lemma AtEnd(buf: seq<byte>, pos: nat, parts: seq<seq<byte>>)
    requires Holds(buf, pos, parts) && pos >= |buf|
    ensures |parts| == 0
  {}

  /** The two octets give a packet's length back exactly when it is below 65536. */
  lemma LengthBack(p: seq<byte>, rest: seq<byte>)
    ensures var b := Packet(p) + rest;
            && |b| == 2 + |p| + |rest| && b[2..2 + |p|] == p && b[2 + |p|..] == rest
            && (Word(b[0], b[1]) == |p| <==> |p| < 0x1_0000)
  {
    var n := |p|;
    assert n % 256 + 256 * ((n / 256) % 256) == n <==> n < 65536 by { LowTwo(n); }
  }

  lemma LowTwo(n: nat)
    ensures n % 256 + 256 * ((n / 256) % 256) == n <==> n < 65536
  {
    var q := n / 256;
    assert n == 256 * q + n % 256;
  }

  lemma {:induction false} HoldsMore(buf: seq<byte>, pos: nat, parts: seq<seq<byte>>, p: seq<byte>)
    requires Holds(buf, pos, parts) && pos <= |buf| && |p| < 0x1_0000
    ensures Holds(buf + Packet(p), pos, parts + [p])
    decreases |parts|
  {
    var more := buf + Packet(p);
    LengthBack(p, []);
    assert Packet(p) + [] == Packet(p);
    if |parts| > 0 {
      hide Packet;
      var n := |parts[0]|;
      assert more[pos + 2..pos + 2 + n] == buf[pos + 2..pos + 2 + n];
      HoldsMore(buf, pos + 2 + n, parts[1..], p);
      assert (parts + [p])[1..] == parts[1..] + [p];
    } else {
      assert more[pos + 2..pos + 2 + |p|] == p;
      assert (parts + [p])[1..] == [];
    }
  }

  /** The packets of the first `n` frames of a track. */
  function TrackParts(e: Encoder, frames: seq<Frame>, n: nat): (s: seq<seq<byte>>)
    requires n <= |frames|
    ensures |s| == n
  {
    seq(n, i requires 0 <= i < n => e.packet(History(frames, i)))
  }

  lemma {:induction false} PacketsHeld(e: Encoder, frames: seq<Frame>, n: nat)
    requires n <= |frames| && |e.head| < 0x1_0000
    requires forall i :: 0 <= i < n ==> |e.packet(History(frames, i))| < 0x1_0000
    ensures Holds(Packet(e.head) + TrackPackets(e, frames, n), 0, [e.head] + TrackParts(e, frames, n))
  {
    hide Packet, History;
    if n > 0 {
      hide Holds;
      PacketsHeld(e, frames, n - 1);
      var buf, p := Packet(e.head) + TrackPackets(e, frames, n - 1), e.packet(History(frames, n - 1));
      HoldsMore(buf, 0, [e.head] + TrackParts(e, frames, n - 1), p);
      assert buf + Packet(p) == Packet(e.head) + TrackPackets(e, frames, n);
      assert ([e.head] + TrackParts(e, frames, n - 1)) + [p] == [e.head] + TrackParts(e, frames, n);
    } else {
      HoldsNone();
      HoldsMore([], 0, [], e.head);
      assert [] + Packet(e.head) == Packet(e.head) + TrackPackets(e, frames, 0);
      assert [] + [e.head] == [e.head] + TrackParts(e, frames, 0);
    }
  }

  lemma HoldsNone()
    ensures Holds([], 0, [])
  {}

  /**
   * An encoded track reads back as its head and one packet for every frame, the one encoded from the
   * frame's history; its lengths are not cut as no packet has 65536 octets.
   */
  lemma TrackReads(e: Encoder, pcm: seq<Sample>, f: nat)
    requires f > 0 && Batch(Recording(e), pcm, f).Some? && |e.head| < 0x1_0000
    requires var frames := Framed(Padded(pcm, f), f);
             forall i :: 0 <= i < |frames| ==> |e.packet(History(frames, i))| < 0x1_0000
    ensures var frames := Framed(Padded(pcm, f), f);
            Holds(Batch(Recording(e), pcm, f).value, 0, [e.head] + TrackParts(e, frames, |frames|))
  {
    hide Framed, Padded, Batch, Holds, History, Packet, TrackPackets, ChunkFails;
    var frames := Framed(Padded(pcm, f), f);
    BatchHistory(e, pcm, f);
    PacketsHeld(e, frames, |frames|);
  }
}
