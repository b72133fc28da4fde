/** EBML element encoding: variable-size integers, IDs and the typed elements built from them. */
module Ebml {
  import opened Bytes

  /** A content length EBML can state: seven bits in each of at most eight octets, all ones reserved. */
  const SIZE_LIMIT: nat := 0xFF_FFFF_FFFF_FFFF

  // ---- sizes

  function VintSize(v: nat): nat { (BitLen(v + 1) + 6) / 7 }

  function IdSize(id: nat): nat { (BitLen(id) + 7) / 8 }

  function UintSize(v: nat): nat { if v == 0 then 1 else (BitLen(v) + 7) / 8 }

  function SintSize(v: int): nat
  {
    if v == 0 then 0
    else
      var magnitude := if v >= 0 then v else -v - 1;
      (BitLen(magnitude) + 1 + 7) / 8
  }

  function UintElemSize(id: nat, v: nat): nat { IdSize(id) + 1 + UintSize(v) }

  /** [id][vint(len)][len octets]; a master element has the same shape. */
  function ElemSize(id: nat, len: nat): nat { IdSize(id) + VintSize(len) + len }

  // ---- octets

  /** The length marker bit above the value; disjoint bits, so `|` is `+`. */
  function Vint(v: nat): (s: seq<byte>)
    ensures |s| == VintSize(v)
  {
    BeBytes(Pow2(7 * VintSize(v)) + v, VintSize(v))
  }

  function Id(id: nat): (s: seq<byte>)
    ensures |s| == IdSize(id)
  {
    BeBytes(id, IdSize(id))
  }

  /** The ID and length of an element of `len` content octets. */
  function Head(id: nat, len: nat): (s: seq<byte>)
    ensures |s| == IdSize(id) + VintSize(len)
  {
    Id(id) + Vint(len)
  }

  function Elem(id: nat, content: seq<byte>): (s: seq<byte>)
    ensures |s| == ElemSize(id, |content|)
  {
    Head(id, |content|) + content
  }

  function UintElem(id: nat, v: nat): seq<byte> { Elem(id, BeBytes(v, UintSize(v))) }

  function SintElem(id: nat, v: int): seq<byte> { Elem(id, SignedBytes(v, SintSize(v))) }

  lemma ElemLonger(id: nat, content: seq<byte>)
    ensures |Elem(id, content)| == ElemSize(id, |content|) >= |content|
  {}

  // ---- least widths

  /** `VintSize` is the least octet count whose value range, reserved all-ones excluded, holds `v`. */
  lemma VintSizeLeast(v: nat, n: nat)
    ensures VintSize(v) <= n <==> v < Pow2(7 * n) - 1
  {
    BitLenBound(v + 1, 7 * n);
  }

  lemma Pow2At56()
    ensures Pow2(56) == SIZE_LIMIT + 1
  {
    assert Pow2(8) == 256;
    Pow2Add(8, 8);
    Pow2Add(16, 8);
    Pow2Add(16, 16);
    Pow2Add(32, 24);
  }

  lemma Pow2At64()
    ensures Pow2(64) == U64_LIMIT
  {
    Pow2At56();
    Pow2Add(56, 8);
    assert Pow2(8) == 256;
  }

  lemma VintSizeRange(v: nat)
    requires v < SIZE_LIMIT
    ensures 1 <= VintSize(v) <= 8
  {
    Pow2At56();
    VintSizeLeast(v, 8);
    VintSizeLeast(v, 0);
  }

  /** `UintSize` is the least octet count, and never zero. */
  lemma UintSizeLeast(v: nat, n: nat)
    requires n >= 1
    ensures UintSize(v) <= n <==> v < Pow2(8 * n)
  {
    BitLenBound(v, 8 * n);
  }

  lemma UintSizeRange(v: nat)
    requires v < U64_LIMIT
    ensures 1 <= UintSize(v) <= 8
  {
    Pow2At64();
    UintSizeLeast(v, 8);
  }

  /** `SintSize` is the least octet count whose two's complement range holds `v`; zero takes none. */
  lemma SintSizeLeast(v: int, n: nat)
    requires n >= 1
    ensures SintSize(v) <= n <==> 0 - Pow2(8 * n - 1) <= v < Pow2(8 * n - 1)
  {
    BitLenBound(if v >= 0 then v else -v - 1, 8 * n - 1);
  }

  lemma SintSizeRange(v: i64)
    ensures SintSize(v) <= 8
  {
    Pow2At64();
    Pow2Add(1, 63);
    SintSizeLeast(v, 8);
  }

  // ---- monotonicity

  lemma VintSizeMono(v: nat, w: nat)
    requires v <= w
    ensures VintSize(v) <= VintSize(w)
  {
    BitLenMono(v + 1, w + 1);
  }

  lemma UintSizeMono(v: nat, w: nat)
    requires v <= w
    ensures UintSize(v) <= UintSize(w)
  {
    BitLenMono(v, w);
  }

  // ---- the values come back

  lemma UintRoundTrip(v: nat)
    ensures BeValue(BeBytes(v, UintSize(v))) == v
  {
    UintSizeLeast(v, UintSize(v));
    BeValueOfBytes(v, UintSize(v));
  }

  lemma SintRoundTrip(v: int)
    ensures SignedValue(SignedBytes(v, SintSize(v))) == v
  {
    if v != 0 {
      var n := SintSize(v);
      SintSizeLeast(v, n);
      SignedRoundTrip(v, n);
    }
  }

  lemma SignedRoundTrip(v: int, n: nat)
    requires n >= 1 && 0 - Pow2(8 * n - 1) <= v < Pow2(8 * n - 1)
    ensures SignedValue(SignedBytes(v, n)) == v
  {
    var half := Pow2(8 * n - 1);
    assert Pow2(8 * n) == 2 * half;
    var u := if v >= 0 then v else v + 2 * half;
    DivModUnique(v, 2 * half, if v >= 0 then 0 else -1, u);
    BeValueOfBytes(u, n);
    BeBytesHead(u, n - 1);
    var p := Pow2(8 * (n - 1));
    Pow2Add(7, 8 * (n - 1));
    assert half == 128 * p by { assert Pow2(7) == 128; }
    TopBit(u, p);
  }

  lemma TopBit(u: nat, p: nat)
    requires p > 0
    ensures u / p >= 128 <==> u >= 128 * p
  {
    assert u == p * (u / p) + u % p;
    if u / p >= 128 { MulAtMost(128, u / p, p); } else { MulAtMost(u / p, 127, p); }
  }

  // ---- writers

  method VintEncode(v: nat, out: array<byte>, at: nat) returns (n: nat)
    requires v < SIZE_LIMIT && at + VintSize(v) <= out.Length
    modifies out
    ensures n == VintSize(v) && Stored(old(out[..]), out[..], at, Vint(v))
  {
    n := VintSize(v);
    Store(out, at, BeBytes(Pow2(7 * n) + v, n));
  }

  method WriteId(id: nat, out: array<byte>, at: nat) returns (n: nat)
    requires at + IdSize(id) <= out.Length
    modifies out
    ensures n == IdSize(id) && Stored(old(out[..]), out[..], at, Id(id))
  {
    n := IdSize(id);
    Store(out, at, BeBytes(id, n));
  }

  /** The ID and length of an element whose content is written next. */
  method WriteMasterHead(id: nat, content: nat, out: array<byte>, at: nat) returns (n: nat)
    requires content < SIZE_LIMIT && at + IdSize(id) + VintSize(content) <= out.Length
    modifies out
    ensures n == IdSize(id) + VintSize(content) && Stored(old(out[..]), out[..], at, Head(id, content))
  {
    hide VintSize, IdSize, Vint, Id, Stored;
    n := WriteId(id, out, at);
    ghost var s1 := out[..];
    var m := VintEncode(content, out, at + n);
    StoredThen(old(out[..]), s1, out[..], at, Id(id), Vint(content));
    n := n + m;
  }

  method WriteBytes(id: nat, bytes: seq<byte>, out: array<byte>, at: nat) returns (n: nat)
    requires |bytes| < SIZE_LIMIT && at + ElemSize(id, |bytes|) <= out.Length
    modifies out
    ensures n == ElemSize(id, |bytes|) && Stored(old(out[..]), out[..], at, Elem(id, bytes))
  {
    hide VintSize, IdSize, Head, Stored;
    n := WriteMasterHead(id, |bytes|, out, at);
    ghost var s1 := out[..];
    Store(out, at + n, bytes);
    StoredThen(old(out[..]), s1, out[..], at, Head(id, |bytes|), bytes);
    n := n + |bytes|;
  }

  method WriteUint(id: nat, value: nat, out: array<byte>, at: nat) returns (n: nat)
    requires value < U64_LIMIT && at + UintElemSize(id, value) <= out.Length
    modifies out
    ensures n == UintElemSize(id, value) && Stored(old(out[..]), out[..], at, UintElem(id, value))
  {
    UintElemLen(id, value);
    UintSizeRange(value);
    n := WriteBytes(id, BeBytes(value, UintSize(value)), out, at);
  }

  /** A uint padded (or cut) to a width pinned across the file. */
  method WriteUintWidth(id: nat, value: nat, width: nat, out: array<byte>, at: nat) returns (n: nat)
    requires width <= 8 && at + IdSize(id) + 1 + width <= out.Length
    modifies out
    ensures n == IdSize(id) + 1 + width && Stored(old(out[..]), out[..], at, Elem(id, BeBytes(value, width)))
  {
    SmallVint(width);
    n := WriteBytes(id, BeBytes(value, width), out, at);
  }

  method WriteSint(id: nat, value: i64, out: array<byte>, at: nat) returns (n: nat)
    requires at + IdSize(id) + 1 + SintSize(value) <= out.Length
    modifies out
    ensures n == IdSize(id) + 1 + SintSize(value) && Stored(old(out[..]), out[..], at, SintElem(id, value))
  {
    SintElemLen(id, value);
    SintSizeRange(value);
    n := WriteBytes(id, SignedBytes(value, SintSize(value)), out, at);
  }

  lemma ShortId(id: nat)
    requires 0 < id < 256
    ensures IdSize(id) == 1 && Id(id) == [id]
  {
    assert Pow2(8) == 256;
    UintSizeLeast(id, 1);
    assert IdSize(id) == UintSize(id);
    assert BitLen(id) > 0;
    assert BeBytes(id, 1) == BeBytes(id / 256, 0) + [id % 256];
  }

  /** A one-octet length for contents below 127. */
  lemma SmallVint(v: nat)
    requires v < 127
    ensures VintSize(v) == 1 && Vint(v) == [128 + v]
  {
    assert Pow2(7) == 128;
    VintSizeLeast(v, 1);
    VintSizeLeast(v, 0);
    assert BeBytes((128 + v) / 256, 0) == [];
    assert BeBytes(128 + v, 1) == [] + [(128 + v) % 256];
  }

  lemma UintElemLen(id: nat, v: nat)
    requires v < U64_LIMIT
    ensures |UintElem(id, v)| == UintElemSize(id, v) == ElemSize(id, UintSize(v))
  {
    UintSizeRange(v);
    SmallVint(UintSize(v));
  }

  lemma SintElemLen(id: nat, v: i64)
    ensures |SintElem(id, v)| == IdSize(id) + 1 + SintSize(v) == ElemSize(id, SintSize(v))
  {
    SintSizeRange(v);
    SmallVint(SintSize(v));
  }
}
