/** CRC-32 (IEEE 802.3, reflected) and its incremental composition. */
module Crc {
  import opened Bytes

  /** The shift register, lowest bit first. */
  type Reg = r: seq<bool> | |r| == 32 witness BitsOf(0, 32)

  /** The low `n` bits of `v`, lowest first. */
  function BitsOf(v: nat, n: nat): (r: seq<bool>)
    ensures |r| == n
  {
    if n == 0 then [] else [v % 2 == 1] + BitsOf(v / 2, n - 1)
  }

  function ValueOf(r: seq<bool>): (v: nat)
    ensures v < Pow2(|r|)
  {
    if |r| == 0 then 0 else (if r[0] then 1 else 0) + 2 * ValueOf(r[1..])
  }

  /** x^32 + x^26 + x^23 + x^22 + x^16 + x^12 + x^11 + x^10 + x^8 + x^7 + x^5 + x^4 + x^2 + x + 1, reflected. */
  predicate Tap(i: nat) { 31 - i in {26, 23, 22, 16, 12, 11, 10, 8, 7, 5, 4, 2, 1, 0} }

  function Ones(): Reg { seq(32, i => true) }

  const INIT: Reg := Ones()
  const FINAL_XOR: Reg := Ones()

  function Xor(a: Reg, b: Reg): Reg
  {
    seq(32, i requires 0 <= i < 32 => a[i] != b[i])
  }

  /** One zero bit through the register: shift right, and fold the polynomial in on a carry. */
  function ShiftBit(s: Reg): Reg
  {
    seq(32, i requires 0 <= i < 32 => (i < 31 && s[i + 1]) != (s[0] && Tap(i)))
  }

  function ShiftBits(s: Reg, n: nat): Reg
    decreases n, |s|
  {
    if n == 0 then s else ShiftBits(ShiftBit(s), n - 1)
  }

  /** One octet: into the low bits, then eight shifts. */
  function Feed(s: Reg, b: byte): Reg { ShiftBits(Xor(s, BitsOf(b, 32)), 8) }

  function Update(s: Reg, data: seq<byte>): Reg
    decreases data
  {
    if |data| == 0 then s else Update(Feed(s, data[0]), data[1..])
  }

  function Crc32(data: seq<byte>): Reg { Xor(Update(INIT, data), FINAL_XOR) }

  /** `crc32_combine`: the checksum of two runs from the checksum and length of each. */
  function Combine(crc1: Reg, crc2: Reg, len2: nat): Reg { Xor(ShiftBits(crc1, 8 * len2), crc2) }

  const CRC_ELEMENT_LEN: nat := 6

  /** `u32::to_le_bytes`. */
  function LeBytes(c: Reg): (s: seq<byte>)
    ensures |s| == 4
  {
    assert Pow2(8) == 256;
    [ValueOf(c[..8]), ValueOf(c[8..16]), ValueOf(c[16..24]), ValueOf(c[24..])]
  }

  /** The CRC-32 element: ID, size 4, value little-endian. */
  function CrcElem(c: Reg): (s: seq<byte>)
    ensures |s| == CRC_ELEMENT_LEN
  {
    [0xBF, 0x84] + LeBytes(c)
  }

  // ---- linearity over exclusive or

  lemma XorSwap(a: Reg, d: Reg, x: Reg)
    ensures Xor(Xor(a, d), x) == Xor(Xor(a, x), d)
  {}

  lemma ShiftBitXor(a: Reg, b: Reg)
    ensures ShiftBit(Xor(a, b)) == Xor(ShiftBit(a), ShiftBit(b))
  {}

  lemma {:induction false} ShiftBitsXor(a: Reg, b: Reg, n: nat)
    ensures ShiftBits(Xor(a, b), n) == Xor(ShiftBits(a, n), ShiftBits(b, n))
    decreases n
  {
    if n > 0 {
      ShiftBitXor(a, b);
      ShiftBitsXor(ShiftBit(a), ShiftBit(b), n - 1);
    }
  }

  lemma {:induction false} ShiftBitsAdd(s: Reg, m: nat, n: nat)
    ensures ShiftBits(s, m + n) == ShiftBits(ShiftBits(s, m), n)
    decreases m
  {
    if m > 0 { ShiftBitsAdd(ShiftBit(s), m - 1, n); }
  }

  lemma FeedXor(a: Reg, d: Reg, b: byte)
    ensures Feed(Xor(a, d), b) == Xor(Feed(a, b), ShiftBits(d, 8))
  {
    XorSwap(a, d, BitsOf(b, 32));
    ShiftBitsXor(Xor(a, BitsOf(b, 32)), d, 8);
  }

  /** A difference in the register only shifts along: the data does not touch it. */
  lemma {:induction false} UpdateXor(a: Reg, d: Reg, data: seq<byte>)
    ensures Update(Xor(a, d), data) == Xor(Update(a, data), ShiftBits(d, 8 * |data|))
    decreases data
  {
    if |data| > 0 {
      FeedXor(a, d, data[0]);
      UpdateXor(Feed(a, data[0]), ShiftBits(d, 8), data[1..]);
      ShiftBitsAdd(d, 8, 8 * (|data| - 1));
    }
  }

  lemma {:induction false} UpdateConcat(s: Reg, a: seq<byte>, b: seq<byte>)
    ensures Update(s, a + b) == Update(Update(s, a), b)
    decreases a
  {
    if |a| > 0 {
      assert (a + b)[1..] == a[1..] + b;
      UpdateConcat(Feed(s, a[0]), a[1..], b);
    } else {
      assert a + b == b;
    }
  }

  lemma XorCancel(s: Reg, t: Reg, z: Reg)
    ensures Xor(INIT, Xor(s, FINAL_XOR)) == s
    ensures Xor(Xor(t, z), FINAL_XOR) == Xor(z, Xor(t, FINAL_XOR))
  {}

  /** combine(crc a, crc b, |b|) is crc(a + b). */
  lemma CombineLaw(a: seq<byte>, b: seq<byte>)
    ensures Combine(Crc32(a), Crc32(b), |b|) == Crc32(a + b)
  {
    var s := Update(INIT, a);
    UpdateConcat(INIT, a, b);
    XorCancel(s, Update(INIT, b), ShiftBits(Crc32(a), 8 * |b|));
    UpdateXor(INIT, Crc32(a), b);
  }

  // ---- the octets of the element, and what a reader finds

  /** Little-endian: the lowest octet comes first. */
  lemma LeBytesValue(c: Reg)
    ensures var l := LeBytes(c);
            ValueOf(c) == (l[0] as int) + 0x100 * (l[1] as int) + 0x1_0000 * (l[2] as int) + 0x100_0000 * (l[3] as int)
  {
    hide ValueOf;
    assert Pow2(8) == 256;
    Pow2Add(8, 8);
    Pow2Add(16, 8);
    ValueSplit(c, 8);
    ValueSplit(c[8..], 8);
    ValueSplit(c[16..], 8);
    assert c[8..][..8] == c[8..16] && c[8..][8..] == c[16..] && c[16..][..8] == c[16..24] && c[16..][8..] == c[24..];
  }

  lemma {:induction false} ValueSplit(r: seq<bool>, n: nat)
    requires n <= |r|
    ensures ValueOf(r) == ValueOf(r[..n]) + Pow2(n) * ValueOf(r[n..])
  {
    if n > 0 {
      ValueSplit(r[1..], n - 1);
      SplitOn(r, n);
      PowTwice(n, ValueOf(r[n..]));
    } else {
      assert r[..0] == [] && r[0..] == r;
    }
  }

  lemma SplitOn(r: seq<bool>, n: nat)
    requires 0 < n <= |r|
    ensures r[1..][..n - 1] == r[..n][1..] && r[1..][n - 1..] == r[n..] && r[..n][0] == r[0]
    ensures ValueOf(r) == (if r[0] then 1 else 0) + 2 * ValueOf(r[1..])
    ensures ValueOf(r[..n]) == (if r[0] then 1 else 0) + 2 * ValueOf(r[..n][1..])
  {}

  lemma PowTwice(n: nat, v: nat)
    requires n > 0
    ensures Pow2(n) * v == 2 * (Pow2(n - 1) * v)
  {
    var p := Pow2(n - 1);
    assert Pow2(n) == 2 * p;
    assert (2 * p) * v == 2 * (p * v);
  }

  lemma {:induction false} BitsOfValue(r: seq<bool>, n: nat)
    requires |r| <= n
    ensures BitsOf(ValueOf(r), n) == r + seq(n - |r|, i => false)
  {
    if n > 0 {
      if |r| > 0 {
        BitsOfValue(r[1..], n - 1);
        assert r == [r[0]] + r[1..];
      } else {
        BitsOfValue(r, n - 1);
      }
    }
  }

  function Down(c: Reg, n: nat): Reg
    requires n <= 32
  {
    c[n..] + seq(n, i => false)
  }

  /** Without ones in the low bits, shifting only moves. */
  lemma {:induction false} ShiftDown(c: Reg, n: nat)
    requires n <= 32 && forall i :: 0 <= i < n ==> !c[i]
    ensures ShiftBits(c, n) == Down(c, n)
    decreases n
  {
    if n > 0 {
      assert ShiftBit(c) == Down(c, 1);
      ShiftDown(ShiftBit(c), n - 1);
      assert Down(Down(c, 1), n - 1) == Down(c, n);
    } else {
      assert Down(c, 0) == c;
    }
  }

  /** Feeding the lowest octet of a value takes it out of a value folded in before. */
  lemma FeedFolded(s: Reg, c: Reg)
    ensures ValueOf(c[..8]) < 256
    ensures ShiftBits(Xor(s, c), 8) == Xor(Feed(s, ValueOf(c[..8])), Down(c, 8))
  {
    assert Pow2(8) == 256;
    var low, high := c[..8] + seq(24, i => false), seq(8, i => false) + c[8..];
    BitsOfValue(c[..8], 32);
    assert Xor(s, c) == Xor(Xor(s, low), high);
    ShiftBitsXor(Xor(s, low), high, 8);
    ShiftDown(high, 8);
    assert Down(high, 8) == Down(c, 8);
  }

  lemma FeedFour(s: Reg, c: Reg)
    ensures Update(s, LeBytes(c)) == ShiftBits(Xor(s, c), 32)
  {
    hide Feed, ShiftBits, ValueOf, Update;
    var l := LeBytes(c);
    FeedFolded(s, c);
    var s1, c1 := Feed(s, l[0]), Down(c, 8);
    assert c1[..8] == c[8..16];
    FeedFolded(s1, c1);
    var s2, c2 := Feed(s1, l[1]), Down(c1, 8);
    assert c2[..8] == c[16..24];
    FeedFolded(s2, c2);
    var s3, c3 := Feed(s2, l[2]), Down(c2, 8);
    assert c3[..8] == c[24..];
    FeedFolded(s3, c3);
    var s4 := Feed(s3, l[3]);
    assert Xor(s4, Down(c3, 8)) == s4;
    ShiftBitsAdd(Xor(s, c), 8, 24);
    ShiftBitsAdd(Xor(s1, c1), 8, 16);
    ShiftBitsAdd(Xor(s2, c2), 8, 8);
    UpdateFour(s, l);
  }

  lemma UpdateFour(s: Reg, l: seq<byte>)
    requires |l| == 4
    ensures Update(s, l) == Feed(Feed(Feed(Feed(s, l[0]), l[1]), l[2]), l[3])
  {
    hide Feed;
    var s1 := Feed(s, l[0]);
    var s2 := Feed(s1, l[1]);
    var s3 := Feed(s2, l[2]);
    assert Update(s, l) == Update(s1, l[1..]);
    assert l[1..][1..] == l[2..] && Update(s1, l[1..]) == Update(s2, l[2..]);
    assert l[2..][1..] == l[3..] && Update(s2, l[2..]) == Update(s3, l[3..]);
    assert l[3..][1..] == [] && Update(s3, l[3..]) == Feed(s3, l[3]);
  }

  // ---- registers as machine words

  /** The bit of weight 2^i. */
  function Mask(i: nat): bv32 { if i == 0 then 1 else Mask(i - 1) << 1 }

  ghost predicate Holds(r: Reg, v: bv32) { forall i :: 0 <= i < 32 ==> (r[i] <==> v & Mask(i) != 0) }

  /** One shift with the polynomial as the usual constant. */
  function ShiftWord(v: bv32): bv32 { if v & 1 != 0 then (v >> 1) ^ 0xEDB8_8320 else v >> 1 }

  /** A single bit; its place in the polynomial; and the next higher one. */
  lemma MaskFacts(i: nat)
    requires i < 32
    ensures Mask(i) != 0 && Mask(i) & (Mask(i) - 1) == 0
    ensures 0xEDB8_8320 & Mask(i) != 0 <==> Tap(i)
    ensures i < 31 ==> Mask(i) & 0x8000_0000 == 0 && Mask(i + 1) == Mask(i) << 1
    ensures i == 31 ==> Mask(i) == 0x8000_0000
  {
    if i < 16 { LowMasks(i); } else { HighMasks(i); }
  }

  ghost predicate MaskOk(i: nat)
  {
    && Mask(i) != 0 && Mask(i) & (Mask(i) - 1) == 0 && (0xEDB8_8320 & Mask(i) != 0 <==> Tap(i))
    && (i < 31 ==> Mask(i) & 0x8000_0000 == 0) && (i == 31 ==> Mask(i) == 0x8000_0000)
  }

  lemma LowMasks(i: nat)
    requires i < 16
    ensures MaskOk(i)
  {
    assert Mask(0) == 0x1 && Mask(1) == 0x2 && Mask(2) == 0x4 && Mask(3) == 0x8;
    assert Mask(4) == 0x10 && Mask(5) == 0x20 && Mask(6) == 0x40 && Mask(7) == 0x80;
    assert Mask(8) == 0x100 && Mask(9) == 0x200 && Mask(10) == 0x400 && Mask(11) == 0x800;
    assert Mask(12) == 0x1000 && Mask(13) == 0x2000 && Mask(14) == 0x4000 && Mask(15) == 0x8000;
  }

  lemma HighMasks(i: nat)
    requires 16 <= i < 32
    ensures MaskOk(i)
  {
    assert Mask(4) == 0x10 && Mask(8) == 0x100 && Mask(12) == 0x1000 && Mask(15) == 0x8000;
    assert Mask(16) == 0x10000 && Mask(17) == 0x20000 && Mask(18) == 0x40000 && Mask(19) == 0x80000;
    assert Mask(20) == 0x100000 && Mask(21) == 0x200000 && Mask(22) == 0x400000 && Mask(23) == 0x800000;
    assert Mask(24) == 0x1000000 && Mask(25) == 0x2000000 && Mask(26) == 0x4000000 && Mask(27) == 0x8000000;
    assert Mask(28) == 0x10000000 && Mask(29) == 0x20000000 && Mask(30) == 0x40000000 && Mask(31) == 0x80000000;
  }

  lemma WordBit(v: bv32, m: bv32)
    requires m != 0 && m & (m - 1) == 0
    ensures m & 0x8000_0000 == 0 ==> ((v >> 1) & m != 0 <==> v & (m << 1) != 0)
    ensures m == 0x8000_0000 ==> (v >> 1) & m == 0
  {}

  lemma WordXor(v: bv32, p: bv32, m: bv32)
    requires m != 0 && m & (m - 1) == 0
    ensures (v ^ p) & m != 0 <==> ((v & m != 0) != (p & m != 0))
  {}

  lemma ShiftWordBit(v: bv32, i: nat)
    requires i < 32
    ensures ShiftWord(v) & Mask(i) != 0
       <==> (i < 31 && v & Mask(i + 1) != 0) != (v & 1 != 0 && Tap(i))
  {
    hide Mask, Tap;
    MaskFacts(i);
    var m := Mask(i);
    WordBit(v, m);
    WordXor(v >> 1, 0xEDB8_8320, m);
  }

  lemma ShiftedBit(r: Reg, i: nat)
    requires i < 32
    ensures ShiftBit(r)[i] == ((i < 31 && r[i + 1]) != (r[0] && Tap(i)))
  {
    hide Tap;
  }

  lemma ShiftHolds(r: Reg, v: bv32)
    requires Holds(r, v)
    ensures Holds(ShiftBit(r), ShiftWord(v))
  {
    hide Mask, Tap, ShiftBit, ShiftWord;
    MaskZero();
    forall i | 0 <= i < 32 ensures ShiftBit(r)[i] <==> ShiftWord(v) & Mask(i) != 0 {
      ShiftWordBit(v, i);
      ShiftedBit(r, i);
    }
  }

  lemma MaskZero()
    ensures Mask(0) == 1
  {}

  function ShiftWords(v: bv32, n: nat): bv32
    decreases n
  {
    if n == 0 then v else ShiftWords(ShiftWord(v), n - 1)
  }

  lemma {:induction false} ShiftsHold(r: Reg, v: bv32, n: nat)
    requires Holds(r, v)
    ensures Holds(ShiftBits(r, n), ShiftWords(v, n))
    decreases n
  {
    hide ShiftBit, ShiftWord, Holds;
    if n > 0 {
      ShiftHolds(r, v);
      ShiftsHold(ShiftBit(r), ShiftWord(v), n - 1);
    }
  }

  const RESIDUE: bv32 := 0xDEBB_20E3

  lemma OnesHold()
    ensures Holds(FINAL_XOR, 0xFFFF_FFFF)
  {
    hide Mask;
    forall i | 0 <= i < 32 ensures 0xFFFF_FFFF & Mask(i) != 0 { MaskFacts(i); }
  }

  lemma {:induction false} ShiftWordsAdd(v: bv32, m: nat, n: nat)
    ensures ShiftWords(v, m + n) == ShiftWords(ShiftWords(v, m), n)
    decreases m
  {
    hide ShiftWord;
    if m > 0 { ShiftWordsAdd(ShiftWord(v), m - 1, n); }
  }

  lemma ResidueWord()
    ensures ShiftWords(0xFFFF_FFFF, 32) == RESIDUE
  {
    hide ShiftWords, ShiftWord;
    ShiftWordsAdd(0xFFFF_FFFF, 8, 24);
    ShiftWordsAdd(0x2DFD_1072, 8, 16);
    ShiftWordsAdd(0xBE26_ED00, 8, 8);
    EightShifts();
  }

  lemma EightShifts()
    ensures ShiftWords(0xFFFF_FFFF, 8) == 0x2DFD_1072 && ShiftWords(0x2DFD_1072, 8) == 0xBE26_ED00
    ensures ShiftWords(0xBE26_ED00, 8) == 0x00BE_26ED && ShiftWords(0x00BE_26ED, 8) == RESIDUE
  {}

  /** A reader that feeds a body and its checksum's octets ends in the same register whatever the body. */
  lemma ResidueLaw(data: seq<byte>)
    ensures Holds(Update(INIT, data + LeBytes(Crc32(data))), RESIDUE)
  {
    hide Feed, ShiftBits, ShiftWords, Holds, LeBytes, Update;
    var s := Update(INIT, data);
    UpdateConcat(INIT, data, LeBytes(Crc32(data)));
    FeedFour(s, Crc32(data));
    assert Xor(s, Crc32(data)) == FINAL_XOR;
    OnesHold();
    ShiftsHold(FINAL_XOR, 0xFFFF_FFFF, 32);
    ResidueWord();
  }

  // ---- the element in place

  method WriteCrcPlaceholder(out: array<byte>, at: nat) returns (n: nat)
    requires at + CRC_ELEMENT_LEN <= out.Length
    modifies out
    ensures n == CRC_ELEMENT_LEN && Stored(old(out[..]), out[..], at, [0xBF, 0x84, 0, 0, 0, 0])
  {
    Store(out, at, [0xBF, 0x84, 0, 0, 0, 0]);
    n := CRC_ELEMENT_LEN;
  }

  method PatchCrc(out: array<byte>, at: nat, value: Reg)
    requires at + 4 <= out.Length
    modifies out
    ensures Stored(old(out[..]), out[..], at, LeBytes(value))
  {
    Store(out, at, LeBytes(value));
  }

  /** Patching the four value octets turns a placeholder into the checksum element. */
  lemma PatchedPlaceholder(pre: seq<byte>, post: seq<byte>, c: Reg)
    ensures var x := pre + [0xBF, 0x84, 0, 0, 0, 0] + post;
            var k := |pre| + 2;
            x[..k] + LeBytes(c) + x[k + 4..] == pre + CrcElem(c) + post
  {}


  /**
   * The checksum of what was written between `from` and `to` goes into the placeholder before it:
   * `head` at `at`, then the CRC-32 element, then `body`.
   */
  method SealCrc(out: array<byte>, ghost s0: seq<byte>, ghost s1: seq<byte>, ghost s2: seq<byte>, ghost at: nat,
                 ghost head: seq<byte>, crcOffset: nat, from: nat, to: nat, ghost body: seq<byte>)
    requires Stored(s0, s1, at, head) && Stored(s1, s2, at + |head|, [0xBF, 0x84, 0, 0, 0, 0])
    requires Stored(s2, out[..], at + |head| + 6, body)
    requires crcOffset == at + |head| + 2 && from == at + |head| + 6 && to == from + |body|
    modifies out
    ensures Stored(s0, out[..], at, head + (CrcElem(Crc32(body)) + body))
  {
    hide Crc32, LeBytes, CrcElem, Stored;
    ghost var s3 := out[..];
    ghost var hole: seq<byte> := [0xBF, 0x84, 0, 0, 0, 0];
    StoredThen(s0, s1, s2, at, head, hole);
    StoredThen(s0, s2, s3, at, head + hole, body);
    StoredSlice(s2, s3, from, body);
    PatchCrc(out, crcOffset, Crc32(out[from..to]));
    StoredPatch(s0, s3, out[..], at, head + hole + body, |head| + 2, LeBytes(Crc32(body)));
    PatchedPlaceholder(head, body, Crc32(body));
    assert head + CrcElem(Crc32(body)) + body == head + (CrcElem(Crc32(body)) + body);
  }
}
