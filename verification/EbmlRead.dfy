/** The EBML reader: IDs, sizes and elements back from octets. */
module EbmlRead {
  import opened Bytes
  import opened Ebml

  datatype Element = Element(id: nat, content: seq<byte>)

  /** `u8::leading_zeros`. */
  function LeadingZeros(b: byte): nat
  {
    BitLenBound(b, 8);
    assert Pow2(8) == 256;
    8 - BitLen(b)
  }

  function ReadId(p: seq<byte>): (r: Option<(nat, nat)>)
    ensures r.Some? ==> 1 <= r.value.1 <= 4 && r.value.1 <= |p|
  {
    if |p| == 0 then None
    else
      var len := LeadingZeros(p[0]) + 1;
      if len > 4 || len > |p| then None
      else Some((Fold(p[0], p[1..len]), len))
  }

  /** (value, width, unknown): all value bits set is the reserved unknown size. */
  function ReadSize(p: seq<byte>): (r: Option<(nat, nat, bool)>)
    ensures r.Some? ==> 1 <= r.value.1 <= 8 && r.value.1 <= |p|
  {
    if |p| == 0 then None
    else
      var len := LeadingZeros(p[0]) + 1;
      if len > 8 || len > |p| then None
      else
        var v := Fold(p[0] % Pow2(8 - len), p[1..len]); // marker bit stripped
        Some((v, len, v == Pow2(7 * len) - 1))
  }

  /** The element at the front and what follows it; always makes progress. */
  function ReadElement(p: seq<byte>): (r: Option<(Element, seq<byte>)>)
    ensures r.Some? ==> |r.value.0.content| + |r.value.1| < |p|
  {
    match ReadId(p)
    case None => None
    case Some((id, il)) =>
      match ReadSize(p[il..])
      case None => None
      case Some((size, sl, unknown)) =>
        var after := p[il + sl..];
        var n := if unknown then |after| else size;
        if n > |after| then None
        else Some((Element(id, after[..n]), after[n..]))
  }

  /** Every element a cursor loop over `p` visits, in order. */
  function Children(p: seq<byte>): seq<Element>
    decreases |p|
  {
    match ReadElement(p)
    case None => []
    case Some((e, next)) => [e] + Children(next)
  }

  /** An ID whose width marker agrees with its own length. */
  predicate IsId(id: nat)
  {
    || 0x80 <= id < 0x100
    || 0x4000 <= id < 0x8000
    || 0x20_0000 <= id < 0x40_0000
    || 0x1000_0000 <= id < 0x2000_0000
  }

  lemma IdBits(id: nat)
    requires IsId(id)
    ensures BitLen(id) == 7 * IdSize(id) + 1 && 1 <= IdSize(id) <= 4
    ensures id < 0x100 ==> IdSize(id) == 1
    ensures 0x4000 <= id < 0x8000 ==> IdSize(id) == 2
    ensures 0x20_0000 <= id < 0x40_0000 ==> IdSize(id) == 3
    ensures 0x1000_0000 <= id ==> IdSize(id) == 4
  {
    Pow2Values();
    BitLenBound(id, 7); BitLenBound(id, 8);
    BitLenBound(id, 14); BitLenBound(id, 15);
    BitLenBound(id, 21); BitLenBound(id, 22);
    BitLenBound(id, 28); BitLenBound(id, 29);
  }

  lemma Pow2Values()
    ensures Pow2(7) == 0x80 && Pow2(8) == 0x100 && Pow2(14) == 0x4000 && Pow2(15) == 0x8000
    ensures Pow2(21) == 0x20_0000 && Pow2(22) == 0x40_0000 && Pow2(28) == 0x1000_0000 && Pow2(29) == 0x2000_0000
  {
    Pow2Add(7, 7); Pow2Add(14, 7); Pow2Add(14, 14);
    assert Pow2(8) == 2 * Pow2(7) && Pow2(15) == 2 * Pow2(14) && Pow2(22) == 2 * Pow2(21) && Pow2(29) == 2 * Pow2(28);
  }

  // ---- what was printed is read back

  /** A value of 7n+1 bits starts with an octet that announces n octets. */
  lemma LeadOctet(x: nat, n: nat)
    requires 1 <= n <= 8 && BitLen(x) == 7 * n + 1
    ensures BeBytes(x, n)[0] == Div(x, Pow2(8 * (n - 1))) && BeBytes(x, n)[1..] == BeBytes(x, n - 1)
    ensures LeadingZeros(BeBytes(x, n)[0]) == n - 1
  {
    BitLenBound(x, 8 * n);
    BeBytesHead(x, n - 1);
    BitLenShift(x, 8 * (n - 1));
  }

  lemma ReadIdBack(id: nat, rest: seq<byte>)
    requires IsId(id)
    ensures ReadId(Id(id) + rest) == Some((id, IdSize(id)))
  {
    var n := IdSize(id);
    var p := Id(id) + rest;
    IdBits(id);
    LeadOctet(id, n);
    assert p[1..n] == BeBytes(id, n - 1);
    FoldWhole(id, n - 1);
  }

  /** The size comes back, and is never mistaken for the reserved unknown size. */
  lemma ReadSizeBack(v: nat, rest: seq<byte>)
    requires v < SIZE_LIMIT
    ensures ReadSize(Vint(v) + rest) == Some((v, VintSize(v), false))
  {
    hide VintSize, BitLen, Pow2, Fold;
    var n := VintSize(v);
    MarkedBits(v);
    var marked := Pow2(7 * n) + v;
    LeadOctet(marked, n);
    Split(Vint(v), rest);
    assert (Vint(v) + rest)[1..n] == BeBytes(marked, n - 1);
    MarkedValue(v, n);
  }

  lemma MarkedBits(v: nat)
    requires v < SIZE_LIMIT
    ensures var n := VintSize(v);
            1 <= n <= 8 && v < Pow2(7 * n) - 1 && BitLen(Pow2(7 * n) + v) == 7 * n + 1
  {
    var n := VintSize(v);
    VintSizeRange(v);
    VintSizeLeast(v, n);
    BitLenBound(Pow2(7 * n) + v, 7 * n);
    BitLenBound(Pow2(7 * n) + v, 7 * n + 1);
  }

  /** Stripping the marker and folding the rest in gives the value. */
  lemma MarkedValue(v: nat, n: nat)
    requires 1 <= n <= 8 && v < Pow2(7 * n)
    ensures var marked := Pow2(7 * n) + v;
            Fold(Div(marked, Pow2(8 * (n - 1))) % Pow2(8 - n), BeBytes(marked, n - 1)) == v
  {
    var marked := Pow2(7 * n) + v;
    var q, top := Pow2(8 * (n - 1)), Pow2(8 - n);
    Pow2Add(8 - n, 8 * (n - 1));
    SplitMarked(v, top, q);
    FoldOfBytes(Div(v, q), marked, n - 1);
    DivModBack(v, q);
  }

  /** Removing the marker bit from the leading octet leaves the value's own leading bits. */
  lemma SplitMarked(v: nat, top: nat, q: nat)
    requires top > 0 && q > 0 && v < top * q
    ensures Div(top * q + v, q) % top == Div(v, q) && (top * q + v) % q == v % q
  {
    var h, l := Div(v, q), v % q;
    if h >= top { MulAtMost(top, h, q); }
    assert top * q + v == q * (top + h) + l;
    DivModUnique(top * q + v, q, top + h, l);
    assert top + h == top * 1 + h;
    DivModUnique(top + h, top, 1, h);
  }

  lemma ReadElementBack(id: nat, content: seq<byte>, rest: seq<byte>)
    requires IsId(id) && |content| < SIZE_LIMIT
    ensures ReadElement(Elem(id, content) + rest) == Some((Element(id, content), rest))
  {
    hide ReadId, ReadSize, Id, Vint, VintSize, IdSize;
    var p := Elem(id, content) + rest;
    var size, body := Vint(|content|), content + rest;
    assert p == Id(id) + (size + body);
    ReadIdBack(id, size + body);
    Split(Id(id), size + body);
    ReadSizeBack(|content|, body);
    assert p == (Id(id) + size) + body;
    Split(Id(id) + size, body);
    Split(content, rest);
  }

  lemma ChildrenBack(id: nat, content: seq<byte>, rest: seq<byte>)
    requires IsId(id) && |content| < SIZE_LIMIT
    ensures Children(Elem(id, content) + rest) == [Element(id, content)] + Children(rest)
  {
    hide ReadElement, Elem;
    ReadElementBack(id, content, rest);
  }
}
