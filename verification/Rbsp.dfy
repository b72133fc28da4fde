/** Emulation prevention: removing the 03 octets an encoder inserts so that no start code appears inside a NAL unit. */
module Rbsp {
  import opened Bytes

  /** The payload of `nal` after `z` zero octets. */
  function Strip(nal: seq<byte>, z: nat): seq<byte>
    decreases nal
  {
    if |nal| == 0 then []
    else if nal[0] == 3 && z >= 2 then Strip(nal[1..], 0)
    else [nal[0]] + Strip(nal[1..], if nal[0] == 0 then z + 1 else 0)
  }

  /** What an encoder writes: section 7.4.1 of H.264, section 7.4.2 of H.265. */
  function Escape(payload: seq<byte>, z: nat): seq<byte>
    decreases payload
  {
    if |payload| == 0 then (if z >= 2 then [3] else [])
    else
      var b := payload[0];
      if z >= 2 && b <= 3 then [3, b] + Escape(payload[1..], if b == 0 then 1 else 0)
      else [b] + Escape(payload[1..], if b == 0 then z + 1 else 0)
  }

  /** Stripping undoes escaping. */
  lemma {:induction false} StripEscape(payload: seq<byte>, z: nat)
    ensures Strip(Escape(payload, z), z) == payload
    decreases payload
  {
    if |payload| > 0 {
      var b, e := payload[0], Escape(payload, z);
      if z >= 2 && b <= 3 {
        StripEscape(payload[1..], if b == 0 then 1 else 0);
        assert e[1..][1..] == Escape(payload[1..], if b == 0 then 1 else 0);
      } else {
        StripEscape(payload[1..], if b == 0 then z + 1 else 0);
        assert e[1..] == Escape(payload[1..], if b == 0 then z + 1 else 0);
      }
    }
  }

  /** No 00 00 00, 00 00 01 or 00 00 02. */
  ghost predicate Clean(s: seq<byte>)
  {
    forall i :: 0 <= i && i + 2 < |s| && s[i] == 0 && s[i + 1] == 0 ==> s[i + 2] > 2
  }

  /** An escaped payload holds no start code, nor completes one begun by `z` zeros before it. */
  lemma {:induction false} EscapeClean(payload: seq<byte>, z: nat)
    ensures var e := Escape(payload, z);
            && Clean(e) && (z >= 2 && |e| > 0 ==> e[0] > 2) && (z >= 1 && |e| > 1 && e[0] == 0 ==> e[1] > 2)
    decreases payload
  {
    if |payload| > 0 {
      var b := payload[0];
      EscapeClean(payload[1..], if z >= 2 && b <= 3 then (if b == 0 then 1 else 0) else if b == 0 then z + 1 else 0);
    }
  }

  /**
   * Removes emulation prevention into a fixed buffer: the payload, or as much of it as fits; the
   * octets past it are left alone.
   */
  method Unescape(nal: seq<byte>, buf: array<byte>)
    modifies buf
    ensures var p := Strip(nal, 0);
            buf[..] == if |p| >= buf.Length then p[..buf.Length] else p + old(buf[..])[|p|..]
  {
    var n, z := 0, 0;
    ghost var was := buf[..];
    var i := 0;
    while i < |nal|
      invariant i <= |nal| && n <= buf.Length
      invariant Strip(nal, 0) == buf[..n] + Strip(nal[i..], z)
      invariant buf[n..] == was[n..]
    {
      if n >= buf.Length { break; }
      var b := nal[i];
      assert nal[i..][1..] == nal[i + 1..];
      i := i + 1;
      if b == 3 && z >= 2 {
        z := 0;
        continue;
      }
      ghost var before := buf[..n];
      ghost var rest := Strip(nal[i..], if b == 0 then z + 1 else 0);
      buf[n] := b;
      n := n + 1;
      assert buf[..n] == before + [b];
      assert before + ([b] + rest) == buf[..n] + rest;
      z := if b == 0 then z + 1 else 0;
    }
    assert i == |nal| ==> nal[i..] == [];
  }

  /** An escaped payload comes back whole when the buffer is large enough, else its first octets. */
  lemma UnescapeEscaped(payload: seq<byte>, was: seq<byte>, now: seq<byte>)
    requires var p := Strip(Escape(payload, 0), 0);
             |now| == |was| && now == if |p| >= |was| then p[..|was|] else p + was[|p|..]
    ensures if |payload| >= |was| then now == payload[..|was|]
            else now[..|payload|] == payload && now[|payload|..] == was[|payload|..]
  {
    StripEscape(payload, 0);
  }
}
