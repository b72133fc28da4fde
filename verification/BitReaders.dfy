/** Reading bit fields and Exp-Golomb codes through a 64-bit window. */
module BitReaders {
  import opened Bytes

  // ---- bits

  /** The low `n` bits of `v`, highest first. */
  function Bin(v: nat, n: nat): (s: seq<bool>)
    ensures |s| == n
  {
    if n == 0 then [] else Bin(v / 2, n - 1) + [v % 2 == 1]
  }

  function Value(s: seq<bool>): nat
  {
    if |s| == 0 then 0 else 2 * Value(s[..|s| - 1]) + if s[|s| - 1] then 1 else 0
  }

  function Zeros(n: nat): (s: seq<bool>)
    ensures |s| == n
  {
    seq(n, _ => false)
  }

  /** The bits of octets, most significant first. */
  function Unpack(d: seq<byte>): (s: seq<bool>)
    ensures |s| == 8 * |d|
  {
    if |d| == 0 then [] else Unpack(d[..|d| - 1]) + Bin(d[|d| - 1], 8)
  }

  type Word = w: seq<bool> | |w| == 64 witness Zeros(64)

  /** `w << n`. */
  function Shl(w: Word, n: nat): Word
    requires n <= 64
  {
    w[n..] + Zeros(n)
  }

  /** `w >> (64 - n)`. */
  function Top(w: Word, n: nat): nat
    requires n <= 64
  {
    Value(w[..n])
  }

  function LeadingZeros(s: seq<bool>): (k: nat)
    ensures k <= |s|
  {
    if |s| == 0 || s[0] then 0 else 1 + LeadingZeros(s[1..])
  }

  // ---- codes

  /** k zeros, then v + 1 in k + 1 bits: section 9.1 of H.264. */
  function UeCode(v: nat): (s: seq<bool>)
    ensures |s| == 2 * UeLen(v) + 1
  {
    Zeros(UeLen(v)) + Bin(v + 1, UeLen(v) + 1)
  }

  function UeLen(v: nat): nat { BitLen(v + 1) - 1 }

  lemma Doubled(v: nat, b: bool, n: nat)
    ensures var w := 2 * v + if b then 1 else 0;
            Bin(w, n + 1) == Bin(v, n) + [b] && (w > 0 ==> BitLen(w) == BitLen(v) + 1)
  {
    var w := 2 * v + if b then 1 else 0;
    assert w / 2 == v && (w % 2 == 1) == b;
  }

  lemma NoBits()
    ensures Bin(0, 0) == [] && BitLen(0) == 0 && forall s: seq<bool> :: [] + s == s
  {}

  /** Table 9-2 of H.264: the first codewords. */
  lemma FirstCodewords(v: nat)
    ensures v == 0 ==> UeCode(v) == [true]
    ensures v == 1 ==> UeCode(v) == [false, true, false]
    ensures v == 2 ==> UeCode(v) == [false, true, true]
    ensures v == 3 ==> UeCode(v) == [false, false, true, false, false]
    ensures v == 6 ==> UeCode(v) == [false, false, true, true, true]
  {
    hide Bin, BitLen;
    NoBits();
    var one, two := (v + 1) / 2, (v + 1) / 2 / 2;
    Doubled(0, true, 0);
    Doubled(two, one % 2 == 1, 1);
    Doubled(one, v % 2 == 0, 1);
    Doubled(one, v % 2 == 0, 2);
    assert Zeros(0) == [] && Zeros(1) == [false] && Zeros(2) == [false, false];
  }

  // ---- facts

  lemma {:induction false} BinValue(v: nat, n: nat)
    requires v < Pow2(n)
    ensures Value(Bin(v, n)) == v
  {
    if n > 0 {
      BinValue(v / 2, n - 1);
      assert Bin(v, n)[..n - 1] == Bin(v / 2, n - 1);
    }
  }

  lemma {:induction false} BinTop(v: nat, n: nat)
    requires BitLen(v) == n > 0
    ensures Bin(v, n)[0]
  {
    if n > 1 {
      BinTop(v / 2, n - 1);
    } else {
      assert v / 2 == 0;
    }
  }

  lemma {:induction false} ZerosValue(k: nat, s: seq<bool>)
    ensures Value(Zeros(k) + s) == Value(s)
    decreases |s|, k
  {
    var t := Zeros(k) + s;
    if |s| > 0 {
      assert t[..|t| - 1] == Zeros(k) + s[..|s| - 1];
      ZerosValue(k, s[..|s| - 1]);
    } else if k > 0 {
      assert t[..k - 1] == Zeros(k - 1) + s;
      ZerosValue(k - 1, s);
    }
  }

  lemma {:induction false} LeadingZerosAre(k: nat, s: seq<bool>)
    requires |s| > 0 && s[0]
    ensures LeadingZeros(Zeros(k) + s) == k
  {
    if k > 0 {
      LeadingZerosAre(k - 1, s);
      assert (Zeros(k) + s)[1..] == Zeros(k - 1) + s;
    } else {
      assert Zeros(0) + s == s;
    }
  }

  lemma {:induction false} UnpackSlice(d: seq<byte>, lo: nat, hi: nat)
    requires lo <= hi <= |d|
    ensures Unpack(d[lo..hi]) == Unpack(d)[8 * lo..8 * hi]
    decreases |d| - lo, hi
  {
    hide Unpack;
    if hi < |d| {
      UnpackPrefix(d, hi);
      var p := d[..hi];
      assert p[lo..hi] == d[lo..hi];
      UnpackTail(p, lo);
    } else {
      UnpackTail(d, lo);
      assert d[lo..hi] == d[lo..];
    }
  }

  lemma {:induction false} UnpackPrefix(d: seq<byte>, hi: nat)
    requires hi <= |d|
    ensures Unpack(d[..hi]) == Unpack(d)[..8 * hi]
    decreases d
  {
    hide Bin;
    if hi < |d| {
      UnpackPrefix(d[..|d| - 1], hi);
      assert d[..|d| - 1][..hi] == d[..hi];
    } else {
      assert d[..hi] == d;
    }
  }

  lemma {:induction false} UnpackTail(d: seq<byte>, lo: nat)
    requires lo <= |d|
    ensures Unpack(d[lo..]) == Unpack(d)[8 * lo..]
    decreases d
  {
    hide Bin;
    if lo < |d| {
      var n := |d| - 1;
      UnpackTail(d[..n], lo);
      assert d[lo..][..n - lo] == d[..n][lo..];
    } else {
      assert d[lo..] == [];
    }
  }

  /** The window at `pos`: the 64 bits of eight octets, those already read shifted out. */
  function Window(d: seq<byte>, pos: nat): Word
    requires pos / 8 + 8 <= |d|
  {
    Shl(Unpack(d[pos / 8..pos / 8 + 8]), pos % 8)
  }

  lemma WindowAt(d: seq<byte>, pos: nat, o: nat, r: nat)
    requires o == pos / 8 && r == pos % 8 && o + 8 <= |d|
    ensures 8 * o + 64 <= 8 * |d| && pos == 8 * o + r
    ensures |Unpack(d)[8 * o..8 * (o + 8)]| == 64 && Window(d, pos) == Shl(Unpack(d)[8 * o..8 * (o + 8)], r)
  {
    hide Unpack, Shl;
    UnpackSlice(d, o, o + 8);
  }

  /** Octet and bit of a position. */
  lemma Position(pos: nat) returns (o: nat, r: nat)
    ensures o == pos / 8 && r == pos % 8 && pos == 8 * o + r
  {
    o, r := pos / 8, pos % 8;
  }

  /** Its first bits are the stream's next bits, up to the end of the eight octets. */
  lemma WindowBits(d: seq<byte>, pos: nat, n: nat)
    requires pos / 8 + 8 <= |d| && n + pos % 8 <= 64
    ensures pos + n <= 8 * |d| && Window(d, pos)[..n] == Unpack(d)[pos..pos + n]
  {
    hide *;
    var o, r := Position(pos);
    WindowAt(d, pos, o, r);
    WindowFront(Unpack(d), pos, o, r, n, Window(d, pos));
  }

  lemma WindowFront(bits: seq<bool>, pos: nat, o: nat, r: nat, n: nat, w: Word)
    requires pos == 8 * o + r && 8 * o + 64 <= |bits| && n + r <= 64 && |bits[8 * o..8 * (o + 8)]| == 64
    requires w == Shl(bits[8 * o..8 * (o + 8)], r)
    ensures pos + n <= |bits| && w[..n] == bits[pos..pos + n]
  {
    hide Shl;
    ShiftedBits(bits, o, r, n);
  }

  lemma ShiftedBits(bits: seq<bool>, o: nat, r: nat, n: nat)
    requires 8 * o + 64 <= |bits| && n + r <= 64 && |bits[8 * o..8 * (o + 8)]| == 64
    ensures Shl(bits[8 * o..8 * (o + 8)], r)[..n] == bits[8 * o + r..8 * o + r + n]
  {
    hide Zeros;
  }

  lemma UeLenIs(v: nat)
    ensures BitLen(v + 1) == UeLen(v) + 1 && v + 1 < Pow2(UeLen(v) + 1)
  {
    BitLenBound(v + 1, UeLen(v) + 1);
  }

  /** A window that starts with a code: its leading zeros and value. */
  lemma CodeAtFront(w: seq<bool>, v: nat)
    requires UeCode(v) <= w
    ensures LeadingZeros(w) == UeLen(v) && Value(w[..2 * UeLen(v) + 1]) == v + 1
  {
    hide LeadingZeros, Value, Zeros, Bin, BitLen, UeLen, Pow2;
    var k := UeLen(v);
    var code, rest := Bin(v + 1, k + 1), w[2 * k + 1..];
    UeLenIs(v);
    BinValue(v + 1, k + 1);
    BinTop(v + 1, k + 1);
    ZerosValue(k, code);
    assert w == (Zeros(k) + code) + rest;
    assert w == Zeros(k) + (code + rest);
    LeadingZerosAre(k, code + rest);
  }

  class BitReader {
    const d: seq<byte>
    var pos: nat

    constructor (d: seq<byte>)
      ensures this.d == d && pos == 0
    {
      this.d := d;
      pos := 0;
    }

    /** The eight octets at the cursor are in the buffer. */
    predicate InBuffer()
      reads this
    {
      pos / 8 + 8 <= |d|
    }

    /** What is still to be read. */
    ghost function Ahead(): seq<bool>
      reads this
      requires InBuffer()
    {
      Unpack(d)[pos..]
    }

    method Skip(n: nat)
      modifies this
      ensures pos == old(pos) + n
    {
      pos := pos + n;
    }

    method Peek() returns (w: Word)
      requires InBuffer()
      ensures w == Window(d, pos)
    {
      w := Shl(Unpack(d[pos / 8..pos / 8 + 8]), pos % 8);
    }

    /** The next `n` bits as a number. */
    method U(n: nat) returns (v: nat)
      requires InBuffer() && 1 <= n && n + pos % 8 <= 64
      modifies this
      ensures n <= |old(Ahead())| && v == Value(old(Ahead())[..n]) % U32_LIMIT
      ensures pos == old(pos) + n
    {
      hide Top, Value, Unpack, Shl;
      var w := Peek();
      WindowBits(d, pos, n);
      TopIs(w, n);
      assert Unpack(d)[pos..][..n] == Unpack(d)[pos..pos + n];
      v := Top(w, n) % U32_LIMIT;
      pos := pos + n;
    }

    method Flag() returns (f: bool)
      requires InBuffer()
      modifies this
      ensures |old(Ahead())| > 0 && f == old(Ahead())[0] && pos == old(pos) + 1
    {
      hide Value, Unpack, Shl;
      var w := Peek();
      WindowBits(d, pos, 1);
      f := w[0];
      assert w[..1][0] == w[0];
      pos := pos + 1;
    }

    /** Exp-Golomb by counting leading zeros. */
    method Ue() returns (v: nat)
      requires InBuffer()
      modifies this
      ensures v == UeOf(Window(d, old(pos))) && pos == old(pos) + 2 * UeZeros(Window(d, old(pos))) + 1
    {
      hide Value, Unpack, Shl;
      var w := Peek();
      var k := UeZeros(w);
      pos := pos + 2 * k + 1;
      v := UeOf(w);
    }

    predicate Aligned()
      reads this
    {
      pos % 8 == 0
    }
  }

  lemma TopIs(w: Word, n: nat)
    requires n <= 64
    ensures Top(w, n) == Value(w[..n])
  {}

  /** `leading_zeros().min(31)`. */
  function UeZeros(w: Word): (k: nat)
    ensures k <= 31
  {
    if LeadingZeros(w) < 31 then LeadingZeros(w) else 31
  }

  /** `wrapping_sub(1)` of the code's 32 value bits. */
  function UeOf(w: Word): nat
  {
    (Top(w, 2 * UeZeros(w) + 1) % U32_LIMIT + U32_LIMIT - 1) % U32_LIMIT
  }

  lemma UeAtFront(w: Word, v: nat)
    requires v + 1 < U32_LIMIT && 2 * UeLen(v) + 1 <= 64 && UeCode(v) <= w
    ensures UeOf(w) == v && UeZeros(w) == UeLen(v)
  {
    hide LeadingZeros, Value, Zeros, Bin, BitLen, UeLen, UeCode;
    CodeAtFront(w, v);
    TopIs(w, 2 * UeLen(v) + 1);
    WrapBack(v);
  }

  /**
   * A code that lies within the window is read back and stepped over. A window holds at least 57
   * bits of the stream, so that is every code of up to 28 leading zeros wherever it starts.
   */
  lemma UeRoundTrip(d: seq<byte>, pos: nat, v: nat)
    requires pos / 8 + 8 <= |d| && v + 1 < U32_LIMIT
    requires 2 * UeLen(v) + 1 + pos % 8 <= 64 && pos <= 8 * |d| && UeCode(v) <= Unpack(d)[pos..]
    ensures UeOf(Window(d, pos)) == v && UeZeros(Window(d, pos)) == UeLen(v)
  {
    hide UeOf, UeZeros, UeLen, Unpack, Window, UeCode;
    var n := 2 * UeLen(v) + 1;
    WindowBits(d, pos, n);
    CodeInWindow(Unpack(d), pos, UeCode(v), Window(d, pos));
    UeAtFront(Window(d, pos), v);
  }

  lemma CodeInWindow(bits: seq<bool>, pos: nat, code: seq<bool>, w: seq<bool>)
    requires pos <= |bits| && code <= bits[pos..] && |code| <= |w| && w[..|code|] == bits[pos..pos + |code|]
    ensures code <= w
  {
    assert bits[pos..][..|code|] == bits[pos..pos + |code|];
  }

  lemma WrapBack(v: nat)
    requires v + 1 < U32_LIMIT
    ensures ((v + 1) % U32_LIMIT + U32_LIMIT - 1) % U32_LIMIT == v
  {}

  /** Every code below 2^29 - 1, the longest 57 bits, is within the window at any alignment. */
  lemma ShortCodes(v: nat, pos: nat)
    requires v + 1 < Pow2(29)
    ensures 2 * UeLen(v) + 1 + pos % 8 <= 64
  {
    hide Pow2;
    BitLenBound(v + 1, 29);
  }
}
