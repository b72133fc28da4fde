/** Octets, big-endian integers and in-place stores into a pre-sized buffer. */
module Bytes {

  type byte = b: int | 0 <= b < 256
  type u64 = v: int | 0 <= v < 0x1_0000_0000_0000_0000
  type i16 = x: int | -0x8000 <= x < 0x8000
  type i64 = x: int | -0x8000_0000_0000_0000 <= x < 0x8000_0000_0000_0000

  datatype Option<+T> = None | Some(value: T)

  const U32_LIMIT: nat := 0x1_0000_0000
  const U64_LIMIT: nat := 0x1_0000_0000_0000_0000

  function Pow2(n: nat): (p: nat)
    ensures p > 0
  {
    if n == 0 then 1 else 2 * Pow2(n - 1)
  }

  /** Number of significant bits: the word width minus `leading_zeros`. */
  function BitLen(v: nat): nat
  {
    if v == 0 then 0 else 1 + BitLen(v / 2)
  }

  /** The low `n` octets of `v`, most significant first: the tail of `to_be_bytes`. */
  function BeBytes(v: nat, n: nat): (s: seq<byte>)
    ensures |s| == n
  {
    if n == 0 then [] else BeBytes(v / 256, n - 1) + [v % 256]
  }

  /** The big-endian fold `a << 8 | b`, started from `acc`. */
  function Fold(acc: nat, s: seq<byte>): nat
    decreases s
  {
    if |s| == 0 then acc else Fold(acc * 256 + s[0], s[1..])
  }

  function BeValue(s: seq<byte>): nat { Fold(0, s) }

  /** Two's complement of `v` in `n` octets. */
  function SignedBytes(v: int, n: nat): (s: seq<byte>)
    ensures |s| == n
  {
    BeBytes(v % Pow2(8 * n), n)
  }

  function SignedValue(s: seq<byte>): int
  {
    var u := BeValue(s);
    if |s| > 0 && s[0] >= 128 then u - Pow2(8 * |s|) else u
  }

  /** Division of naturals. */
  function Div(v: nat, d: nat): (q: nat)
    requires d > 0
    ensures q == v / d && v == d * q + v % d
  {
    DivNonNegative(v, d);
    v / d
  }

  lemma DivNonNegative(v: nat, d: nat)
    requires d > 0
    ensures v / d >= 0
  {
    var q := v / d;
    assert v == d * q + v % d;
    if q < 0 { MulAtLeast(d, -q); }
  }

  // ---- powers and bit lengths

  lemma {:induction false} Pow2Add(m: nat, n: nat)
    ensures Pow2(m + n) == Pow2(m) * Pow2(n)
  {
    if m > 0 {
      Pow2Add(m - 1, n);
      assert Pow2(m + n) == 2 * Pow2(m - 1 + n);
    }
  }

  lemma {:induction false} Pow2Mono(m: nat, n: nat)
    requires m <= n
    ensures Pow2(m) <= Pow2(n)
  {
    if m < n { Pow2Mono(m, n - 1); }
  }

  lemma Pow2Bytes(n: nat)
    ensures Pow2(8 * (n + 1)) == 256 * Pow2(8 * n)
  {
    Pow2Add(8, 8 * n);
    assert Pow2(8) == 256;
  }

  /** `BitLen` is the least width that holds the value. */
  lemma {:induction false} BitLenBound(v: nat, n: nat)
    ensures BitLen(v) <= n <==> v < Pow2(n)
  {
    if v > 0 && n > 0 { BitLenBound(v / 2, n - 1); }
  }

  lemma {:induction false} BitLenMono(v: nat, w: nat)
    requires v <= w
    ensures BitLen(v) <= BitLen(w)
  {
    BitLenBound(w, BitLen(w));
    BitLenBound(v, BitLen(w));
  }

  /** Dropping the low `k` bits shortens a value by `k`. */
  lemma {:induction false} BitLenShift(v: nat, k: nat)
    ensures BitLen(Div(v, Pow2(k))) == if BitLen(v) >= k then BitLen(v) - k else 0
  {
    if k > 0 {
      BitLenShift(v / 2, k - 1);
      HalfDiv(v, Pow2(k - 1));
    } else {
      assert Div(v, 1) == v;
    }
  }

  lemma HalfDiv(v: nat, p: nat)
    requires p > 0
    ensures Div(v, 2 * p) == Div(v / 2, p)
  {
    var q, r := v / (2 * p), v % (2 * p);
    assert v == (2 * p) * q + r;
    Double(p, q);
    DivModUnique(v / 2, p, q, r / 2);
  }

  lemma Double(p: int, q: int)
    ensures (2 * p) * q == 2 * (p * q)
  {}

  // ---- big-endian integers

  lemma {:induction false} FoldSnoc(acc: nat, s: seq<byte>, b: byte)
    ensures Fold(acc, s + [b]) == Fold(acc, s) * 256 + b
    decreases s
  {
    if |s| > 0 {
      assert (s + [b])[1..] == s[1..] + [b];
      FoldSnoc(acc * 256 + s[0], s[1..], b);
    }
  }

  /** Reading back `n` octets of `v` after an accumulator shifts it in modulo 256^n. */
  lemma {:induction false} FoldOfBytes(acc: nat, v: nat, n: nat)
    ensures Fold(acc, BeBytes(v, n)) == acc * Pow2(8 * n) + v % Pow2(8 * n)
  {
    if n > 0 {
      var p := Pow2(8 * (n - 1));
      FoldSnoc(acc, BeBytes(v / 256, n - 1), v % 256);
      FoldOfBytes(acc, v / 256, n - 1);
      Pow2Bytes(n - 1);
      ModSplit(v, p);
      assert Fold(acc, BeBytes(v, n)) == (acc * p + (v / 256) % p) * 256 + v % 256;
      assert (acc * p) * 256 == acc * (256 * p) by { MulAssoc(acc, p); }
    }
  }

  lemma MulAssoc(a: int, p: int)
    ensures (a * p) * 256 == a * (256 * p)
  {}

  lemma ModSplit(v: nat, p: nat)
    requires p > 0
    ensures v % (256 * p) == 256 * ((v / 256) % p) + v % 256
  {
    var q, r := v / 256, v % 256;
    var k, m := q / p, q % p;
    assert q == p * k + m;
    assert v == 256 * (p * k + m) + r;
    assert v == (256 * p) * k + (256 * m + r) by { MulAssoc(k, p); }
    DivModUnique(v, 256 * p, k, 256 * m + r);
  }

  lemma DivModUnique(v: int, d: int, q: int, r: int)
    requires d > 0 && 0 <= r < d && v == d * q + r
    ensures v / d == q && v % d == r
  {
    var e := v / d - q;
    assert v == d * (v / d) + v % d;
    assert d * e == r - v % d by {
      assert d * (v / d) - d * q == d * e;
    }
    if e > 0 { MulAtLeast(d, e); }
    if e < 0 { MulAtLeast(d, -e); }
  }

  lemma MulAtMost(a: int, b: int, p: int)
    requires a <= b && p >= 0
    ensures p * a <= p * b && p * a == a * p
  {}

  lemma MulAtLeast(d: int, e: int)
    requires d > 0 && e > 0
    ensures d * e >= d
  {}

  /** The part above `n` octets, then those octets, make the whole. */
  lemma FoldWhole(v: nat, n: nat)
    ensures Fold(Div(v, Pow2(8 * n)), BeBytes(v, n)) == v
  {
    var hi := Div(v, Pow2(8 * n));
    FoldOfBytes(hi, v, n);
    DivModBack(v, Pow2(8 * n));
  }

  lemma DivModBack(v: nat, d: nat)
    requires d > 0
    ensures (v / d) * d + v % d == v
  {
    assert v == d * (v / d) + v % d;
  }

  lemma BeValueOfBytes(v: nat, n: nat)
    requires v < Pow2(8 * n)
    ensures BeValue(BeBytes(v, n)) == v
  {
    FoldOfBytes(0, v, n);
    DivModUnique(v, Pow2(8 * n), 0, v);
  }

  lemma {:induction false} BeBytesHead(v: nat, n: nat)
    requires v < Pow2(8 * (n + 1))
    ensures Div(v, Pow2(8 * n)) < 256
    ensures BeBytes(v, n + 1) == [Div(v, Pow2(8 * n))] + BeBytes(v, n)
  {
    if n > 0 {
      Pow2Bytes(n - 1);
      Pow2Bytes(n);
      BeBytesHead(v / 256, n - 1);
      DivNest(v, Pow2(8 * (n - 1)));
    } else {
      assert Pow2(8) == 256;
      assert Div(v, 1) == v;
    }
  }

  lemma DivNest(v: nat, p: nat)
    requires p > 0
    ensures Div(v, 256 * p) == Div(v / 256, p)
  {
    var q, r := Div(v, 256 * p), v % (256 * p);
    MulAssoc(q, p);
    DivModUnique(v / 256, p, q, r / 256);
  }

  lemma Split(a: seq<byte>, b: seq<byte>)
    ensures (a + b)[..|a|] == a && (a + b)[|a|..] == b
  {}

  // ---- stores

  /** `after` is `before` with `bytes` written at `at`; nothing else moved. */
  ghost predicate Stored(before: seq<byte>, after: seq<byte>, at: nat, bytes: seq<byte>)
  {
    at + |bytes| <= |before| && after == before[..at] + bytes + before[at + |bytes|..]
  }

  lemma StoredThen(a: seq<byte>, b: seq<byte>, c: seq<byte>, at: nat, x: seq<byte>, y: seq<byte>)
    requires Stored(a, b, at, x) && Stored(b, c, at + |x|, y)
    ensures Stored(a, c, at, x + y)
  {
    assert b[..at + |x|] == a[..at] + x;
    assert b[at + |x| + |y|..] == a[at + |x| + |y|..];
  }

  lemma StoredThen3(a: seq<byte>, b: seq<byte>, c: seq<byte>, d: seq<byte>, at: nat,
                    x: seq<byte>, y: seq<byte>, z: seq<byte>)
    requires Stored(a, b, at, x) && Stored(b, c, at + |x|, y) && Stored(c, d, at + |x| + |y|, z)
    ensures Stored(a, d, at, x + y + z)
  {
    hide Stored;
    StoredThen(a, b, c, at, x, y);
    StoredThen(a, c, d, at, x + y, z);
  }

  lemma StoredNothing(a: seq<byte>, at: nat)
    requires at <= |a|
    ensures Stored(a, a, at, [])
  {}

  /** Overwriting part of what was stored. */
  lemma StoredPatch(a: seq<byte>, b: seq<byte>, c: seq<byte>, at: nat, x: seq<byte>, k: nat, y: seq<byte>)
    requires Stored(a, b, at, x) && k + |y| <= |x| && Stored(b, c, at + k, y)
    ensures Stored(a, c, at, x[..k] + y + x[k + |y|..])
  {
    assert b[..at + k] == a[..at] + x[..k];
    assert b[at + k + |y|..] == x[k + |y|..] + a[at + |x|..];
  }

  /** What was stored can be read back as a slice. */
  lemma StoredSlice(a: seq<byte>, b: seq<byte>, at: nat, x: seq<byte>)
    requires Stored(a, b, at, x)
    ensures |b| == |a| && b[at..at + |x|] == x && b[..at] == a[..at]
  {}

  /** `copy_from_slice` into `out[at..]`. */
  method Store(out: array<byte>, at: nat, bytes: seq<byte>)
    requires at + |bytes| <= out.Length
    modifies out
    ensures Stored(old(out[..]), out[..], at, bytes)
  {
    forall i | 0 <= i < |bytes| { out[at + i] := bytes[i]; }
  }
}
