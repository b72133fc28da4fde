/** Reading the picture order count out of a slice NAL unit. */
module SliceHeaders {
  import opened Bytes
  import opened BitReaders
  import opened Pocs
  import opened Rbsp

  /** `code` is what the stream holds from bit `pos` on. */
  ghost predicate Follows(bits: seq<bool>, pos: nat, code: seq<bool>)
  {
    pos + |code| <= |bits| && bits[pos..pos + |code|] == code
  }

  lemma FollowsSplit(bits: seq<bool>, pos: nat, a: seq<bool>, b: seq<bool>)
    requires Follows(bits, pos, a + b)
    ensures Follows(bits, pos, a) && Follows(bits, pos + |a|, b)
  {
    var s := bits[pos..pos + |a + b|];
    assert s[..|a|] == bits[pos..pos + |a|] && s[|a|..] == bits[pos + |a|..pos + |a| + |b|];
  }

  /** Codes of at most 57 bits. */
  const SHORT: nat := 0x1FFF_FFFF

  lemma ShortIs(v: nat)
    requires v < SHORT
    ensures v + 1 < Pow2(29) && v + 1 < U32_LIMIT
  {
    Pow2Add(14, 15);
    assert Pow2(14) == 0x4000 && Pow2(15) == 0x8000;
  }

  lemma FollowsAhead(bits: seq<bool>, pos: nat, code: seq<bool>)
    requires Follows(bits, pos, code)
    ensures pos <= |bits| && code <= bits[pos..]
  {
    assert bits[pos..][..|code|] == bits[pos..pos + |code|];
  }

  method ReadUe(b: BitReader, ghost v: nat, ghost rest: seq<bool>) returns (r: nat)
    requires b.InBuffer() && v < SHORT && Follows(Unpack(b.d), b.pos, UeCode(v) + rest)
    modifies b
    ensures r == v && b.pos == old(b.pos) + |UeCode(v)| && Follows(Unpack(b.d), b.pos, rest)
  {
    hide Follows, Unpack, UeCode, UeOf, UeZeros, Window;
    FollowsSplit(Unpack(b.d), b.pos, UeCode(v), rest);
    FollowsAhead(Unpack(b.d), b.pos, UeCode(v));
    UeReads(b.d, b.pos, v);
    r := b.Ue();
  }

  lemma UeReads(d: seq<byte>, pos: nat, v: nat)
    requires pos / 8 + 8 <= |d| && v < SHORT && pos <= |Unpack(d)| && UeCode(v) <= Unpack(d)[pos..]
    ensures UeOf(Window(d, pos)) == v && 2 * UeZeros(Window(d, pos)) + 1 == |UeCode(v)|
  {
    hide Unpack, Window, UeOf, UeZeros, Pow2, UeLen;
    ShortIs(v);
    ShortCodes(v, pos);
    UeRoundTrip(d, pos, v);
  }

  method SkipBits(b: BitReader, n: nat, ghost code: seq<bool>, ghost rest: seq<bool>)
    requires |code| == n && Follows(Unpack(b.d), b.pos, code + rest)
    modifies b
    ensures b.pos == old(b.pos) + n && Follows(Unpack(b.d), b.pos, rest)
  {
    FollowsSplit(Unpack(b.d), b.pos, code, rest);
    b.Skip(n);
  }

  method ReadBits(b: BitReader, n: nat, ghost v: nat) returns (r: nat)
    requires b.InBuffer() && 1 <= n <= 32 && v < Pow2(n) && Follows(Unpack(b.d), b.pos, Bin(v, n))
    modifies b
    ensures r == v && b.pos == old(b.pos) + n
  {
    hide Unpack, Value, Bin, Pow2;
    FollowsAhead(Unpack(b.d), b.pos, Bin(v, n));
    BinValue(v, n);
    Fits32(v, n);
    ghost var ahead := b.Ahead();
    assert ahead[..n] == Bin(v, n);
    r := b.U(n);
  }

  lemma Fits32(v: nat, n: nat)
    requires v < Pow2(n) && n <= 32
    ensures v % U32_LIMIT == v
  {
    hide Pow2;
    Pow2Mono(n, 32);
    PowAt32();
  }

  lemma PowAt32()
    ensures Pow2(32) == U32_LIMIT
  {
    Pow2Add(16, 16);
    Pow2Add(8, 8);
    assert Pow2(8) == 256;
  }

  // ---- H.264, picture order count type 0

  /** The fields in front of and including the count's low bits. */
  datatype Head264 = Head264(firstMb: nat, sliceType: nat, ppsId: nat, frameNum: nat, lsb: nat)

  /** Section 7.3.3 of H.264, up to pic_order_cnt_lsb. */
  function Bits264(h: Head264, log2FrameNum: nat, log2Poc: nat): seq<bool>
  {
    UeCode(h.firstMb) + (UeCode(h.sliceType) + (UeCode(h.ppsId)
                                                + (Bin(h.frameNum, log2FrameNum) + Bin(h.lsb, log2Poc))))
  }

  /** The slice's payload holds the fields behind its header octet, within the 24 octets a 32-octet buffer serves. */
  ghost predicate Holds264(nal: seq<byte>, h: Head264, log2FrameNum: nat, log2Poc: nat)
  {
    && |nal| > 0 && h.firstMb < SHORT && h.sliceType < SHORT && h.ppsId < SHORT && h.lsb < Pow2(log2Poc)
    && 8 + |Bits264(h, log2FrameNum, log2Poc)| <= 192
    && Follows(Unpack(Strip(nal, 0)), 8, Bits264(h, log2FrameNum, log2Poc))
  }

  /** A 32-octet buffer holds the payload's first bits. */
  lemma Buffered(p: seq<byte>, buf: seq<byte>, pos: nat, code: seq<bool>)
    requires |buf| == 32 && Follows(Unpack(p), pos, code) && pos + |code| <= 192
    requires if |p| >= 32 then buf == p[..32] else buf[..|p|] == p
    ensures Follows(Unpack(buf), pos, code)
  {
    hide Unpack;
    var m := if |p| >= 32 then 32 else |p|;
    UnpackPrefix(p, m);
    UnpackPrefix(buf, m);
    assert p[..m] == buf[..m];
    var common := Unpack(p)[..8 * m];
    assert common[pos..pos + |code|] == Unpack(p)[pos..pos + |code|] == Unpack(buf)[pos..pos + |code|];
  }

  /** A slice's payload, as much as fits, in the reader's buffer. */
  method OpenNal(nal: seq<byte>, ghost pos: nat, ghost code: seq<bool>) returns (b: BitReader)
    requires Follows(Unpack(Strip(nal, 0)), pos, code) && pos + |code| <= 192
    ensures fresh(b) && b.pos == 0 && |b.d| == 32 && Follows(Unpack(b.d), pos, code)
  {
    hide Unpack, Strip, Follows;
    var buf := new byte[32](_ => 0);
    Unescape(nal, buf);
    Buffered(Strip(nal, 0), buf[..], pos, code);
    b := new BitReader(buf[..]);
  }

  /** nal_ref_idc != 0: the picture becomes the reference for the next count. */
  function IsReference264(b0: byte): bool { (b0 / 32) % 4 != 0 }

  /**
   * The count of an H.264 slice: zero and a restart for IDR, else the closest count with the low bits
   * the encoder wrote.
   */
  method SlicePoc264(poc: Poc, nal: seq<byte>, log2FrameNum: nat, log2Poc: nat, ghost h: Head264) returns (count: int)
    requires Holds264(nal, h, log2FrameNum, log2Poc) && 4 <= log2Poc <= 16 && poc.Valid(log2Poc)
    modifies poc
    ensures poc.Valid(log2Poc)
    ensures nal[0] % 32 == 5 ==> count == 0 == poc.Prev()
    ensures nal[0] % 32 != 5 ==> count == Closest(old(poc.Prev()), h.lsb, log2Poc)
    ensures nal[0] % 32 != 5 ==> poc.Prev() == if IsReference264(nal[0]) then count else old(poc.Prev())
  {
    hide Unpack, Strip, Follows, UeCode, Bin, Pow2, Poc.Valid, Closest, BitReader.InBuffer;
    var b := OpenNal(nal, 8, Bits264(h, log2FrameNum, log2Poc));
    b.Skip(8);
    InBuffer32(b);
    ghost var fn, lb := Bin(h.frameNum, log2FrameNum), Bin(h.lsb, log2Poc);
    var _ := ReadUe(b, h.firstMb, UeCode(h.sliceType) + (UeCode(h.ppsId) + (fn + lb)));
    InBuffer32(b);
    var _ := ReadUe(b, h.sliceType, UeCode(h.ppsId) + (fn + lb));
    InBuffer32(b);
    var _ := ReadUe(b, h.ppsId, fn + lb);
    SkipBits(b, log2FrameNum, fn, lb);
    if nal[0] % 32 == 5 {
      poc.Reset(0);
      ResetValid(poc, log2Poc);
      return 0;
    }
    InBuffer32(b);
    var lsb := ReadBits(b, log2Poc, h.lsb);
    count := poc.Full(lsb, log2Poc, IsReference264(nal[0]));
  }

  lemma InBuffer32(b: BitReader)
    requires |b.d| == 32 && b.pos <= 192
    ensures b.InBuffer()
  {}

  lemma ResetValid(poc: Poc, log2: nat)
    requires poc.prevMsb == 0 && poc.prevLsb == 0
    ensures poc.Valid(log2)
  {
    assert Pow2(log2) > 0;
  }

  // ---- H.265

  datatype Head265 = Head265(first: bool, noOutput: bool, ppsId: nat, extra: seq<bool>, sliceType: nat,
                             outputFlag: bool, lsb: nat)

  /** What the active parameter sets say about slice headers. */
  datatype Sets265 = Sets265(log2Poc: nat, numExtra: nat, outputFlagPresent: bool)

  predicate IsIrap(t: nat) { 16 <= t <= 23 }

  predicate IsIdr(t: nat) { t == 19 || t == 20 }

  /** BLA and CRA pictures, taken as restarts. */
  predicate IsRestart(t: nat) { 16 <= t <= 18 || t == 21 }

  /** TemporalId 0 and neither a sub-layer non-reference nor a leading picture: section 8.3.1 of H.265. */
  predicate IsReference265(t: nat, tid: int) { tid == 0 && !(t <= 15 && t % 2 == 0) && !(6 <= t <= 9) }

  function TypeBits(h: Head265, p: Sets265): seq<bool>
  {
    UeCode(h.sliceType) + ((if p.outputFlagPresent then [h.outputFlag] else []) + Bin(h.lsb, p.log2Poc))
  }

  /** Section 7.3.6.1 of H.265 behind first_slice_segment_in_pic_flag, up to slice_pic_order_cnt_lsb. */
  function Fields265(h: Head265, t: nat, p: Sets265): seq<bool>
  {
    (if IsIrap(t) then [h.noOutput] else []) + (UeCode(h.ppsId) + if IsIdr(t) then [] else h.extra + TypeBits(h, p))
  }

  function Bits265(h: Head265, t: nat, p: Sets265): seq<bool>
  {
    [h.first] + if h.first then Fields265(h, t, p) else []
  }

  ghost predicate Holds265(nal: seq<byte>, h: Head265, t: nat, p: Sets265)
  {
    && h.ppsId < SHORT && h.sliceType < SHORT && |h.extra| == p.numExtra && h.lsb < Pow2(p.log2Poc)
    && 16 + |Bits265(h, t, p)| <= 192
    && Follows(Unpack(Strip(nal, 0)), 16, Bits265(h, t, p))
  }

  method ReadFlag(b: BitReader, ghost f: bool, ghost rest: seq<bool>) returns (r: bool)
    requires b.InBuffer() && Follows(Unpack(b.d), b.pos, [f] + rest)
    modifies b
    ensures r == f && b.pos == old(b.pos) + 1 && Follows(Unpack(b.d), b.pos, rest)
  {
    hide Unpack;
    FollowsSplit(Unpack(b.d), b.pos, [f], rest);
    FollowsAhead(Unpack(b.d), b.pos, [f]);
    r := b.Flag();
  }

  /** A flag that is there or not is stepped over. */
  method SkipFlag(b: BitReader, present: bool, ghost f: bool, ghost rest: seq<bool>)
    requires Follows(Unpack(b.d), b.pos, (if present then [f] else []) + rest)
    modifies b
    ensures b.pos == old(b.pos) + (if present then 1 else 0) && Follows(Unpack(b.d), b.pos, rest)
  {
    hide Unpack;
    FollowsSplit(Unpack(b.d), b.pos, if present then [f] else [], rest);
    if present { b.Skip(1); }
  }

  /** The count of an H.265 picture by its first slice; a further slice of it has none and changes nothing. */
  method SlicePoc265(poc: Poc, nal: seq<byte>, t: nat, tid: int, p: Sets265, ghost h: Head265)
    returns (count: Option<int>)
    requires Holds265(nal, h, t, p) && 4 <= p.log2Poc <= 16 && poc.Valid(p.log2Poc)
    modifies poc
    ensures poc.Valid(p.log2Poc) && (count.Some? <==> h.first)
    ensures !h.first ==> poc.prevMsb == old(poc.prevMsb) && poc.prevLsb == old(poc.prevLsb)
    ensures h.first && IsIdr(t) ==> count == Some(0) && poc.Prev() == 0
    ensures h.first && IsRestart(t) ==> count == Some(h.lsb) && poc.Prev() == h.lsb
    ensures h.first && !IsIdr(t) && !IsRestart(t) ==>
      && count == Some(Closest(old(poc.Prev()), h.lsb, p.log2Poc))
      && poc.Prev() == if IsReference265(t, tid) then count.value else old(poc.Prev())
  {
    hide Unpack, Strip, Follows, UeCode, Bin, Pow2, Poc.Valid, Closest, BitReader.InBuffer, IsReference265, Fields265;
    var b := OpenNal(nal, 16, Bits265(h, t, p));
    b.Skip(16);
    InBuffer32(b);
    var first := ReadFlag(b, h.first, if h.first then Fields265(h, t, p) else []);
    if !first { return None; }
    var n := FirstSlicePoc265(poc, b, t, tid, p, h);
    count := Some(n);
  }

  /** Behind the flag of a first slice. */
  method FirstSlicePoc265(poc: Poc, b: BitReader, t: nat, tid: int, p: Sets265, ghost h: Head265) returns (count: int)
    requires |b.d| == 32 && b.pos + |Fields265(h, t, p)| <= 192 && Follows(Unpack(b.d), b.pos, Fields265(h, t, p))
    requires h.ppsId < SHORT && h.sliceType < SHORT && |h.extra| == p.numExtra && h.lsb < Pow2(p.log2Poc)
    requires 4 <= p.log2Poc <= 16 && poc.Valid(p.log2Poc)
    modifies poc, b
    ensures poc.Valid(p.log2Poc)
    ensures IsIdr(t) ==> count == 0 == poc.Prev()
    ensures IsRestart(t) ==> count == h.lsb == poc.Prev()
    ensures !IsIdr(t) && !IsRestart(t) ==> count == Closest(old(poc.Prev()), h.lsb, p.log2Poc)
    ensures !IsIdr(t) && !IsRestart(t) ==> poc.Prev() == if IsReference265(t, tid) then count else old(poc.Prev())
  {
    hide Unpack, Strip, Follows, UeCode, Bin, Pow2, Poc.Valid, Closest, BitReader.InBuffer, IsReference265;
    ghost var tail := if IsIdr(t) then [] else h.extra + TypeBits(h, p);
    SkipFlag(b, IsIrap(t), h.noOutput, UeCode(h.ppsId) + tail);
    InBuffer32(b);
    var _ := ReadUe(b, h.ppsId, tail);
    if IsIdr(t) {
      poc.Reset(0);
      ResetValid(poc, p.log2Poc);
      return 0;
    }
    SkipBits(b, p.numExtra, h.extra, TypeBits(h, p));
    InBuffer32(b);
    ghost var lb := Bin(h.lsb, p.log2Poc);
    var _ := ReadUe(b, h.sliceType, (if p.outputFlagPresent then [h.outputFlag] else []) + lb);
    SkipFlag(b, p.outputFlagPresent, h.outputFlag, lb);
    InBuffer32(b);
    var lsb := ReadBits(b, p.log2Poc, h.lsb);
    if IsRestart(t) {
      poc.Reset(lsb);
      RestartValid(poc, lsb, p.log2Poc);
      return lsb;
    }
    count := poc.Full(lsb, p.log2Poc, IsReference265(t, tid));
  }

  lemma RestartValid(poc: Poc, lsb: int, log2: nat)
    requires poc.prevMsb == 0 && poc.prevLsb == lsb && 0 <= lsb < Pow2(log2)
    ensures poc.Valid(log2)
  {}

  // ---- H.266

  /** The picture header in a slice header. */
  datatype Head266 = Head266(inSlice: bool, gdrOrIrap: bool, nonRef: bool, gdr: bool, inter: bool, intra: bool,
                             ppsId: nat, lsb: nat)

  /** IRAP and GDR pictures, taken as restarts. */
  predicate IsRestart266(t: nat) { 7 <= t <= 10 }

  /** TemporalId 0 and neither declared unreferenced nor a leading picture: section 8.3.1 of H.266. */
  predicate IsReference266(t: nat, tid: int, nonRef: bool) { tid == 0 && !nonRef && t != 2 && t != 3 }

  function Order266(h: Head266, log2Poc: nat): seq<bool>
  {
    [h.inter] + ((if h.inter then [h.intra] else []) + (UeCode(h.ppsId) + Bin(h.lsb, log2Poc)))
  }

  /** Section 7.3.2.8 of H.266, up to ph_pic_order_cnt_lsb. */
  function Fields266(h: Head266, log2Poc: nat): seq<bool>
  {
    [h.gdrOrIrap] + ([h.nonRef] + ((if h.gdrOrIrap then [h.gdr] else []) + Order266(h, log2Poc)))
  }

  function Bits266(h: Head266, log2Poc: nat): seq<bool>
  {
    [h.inSlice] + if h.inSlice then Fields266(h, log2Poc) else []
  }

  ghost predicate Holds266(nal: seq<byte>, h: Head266, log2Poc: nat)
  {
    && h.ppsId < SHORT && h.lsb < Pow2(log2Poc) && 16 + |Bits266(h, log2Poc)| <= 192
    && Follows(Unpack(Strip(nal, 0)), 16, Bits266(h, log2Poc))
  }

  /**
   * The count of an H.266 picture whose header is in its slice; none without such a header or a
   * readable parameter set.
   */
  method SlicePoc266(poc: Poc, nal: seq<byte>, t: nat, tid: int, log2Poc: nat, ghost h: Head266)
    returns (count: Option<int>)
    requires log2Poc == 0 || (Holds266(nal, h, log2Poc) && 4 <= log2Poc <= 19 && poc.Valid(log2Poc))
    modifies poc
    ensures count.Some? <==> log2Poc != 0 && h.inSlice
    ensures count.None? ==> poc.prevMsb == old(poc.prevMsb) && poc.prevLsb == old(poc.prevLsb)
    ensures count.Some? ==> poc.Valid(log2Poc)
    ensures count.Some? && IsRestart266(t) ==> count == Some(h.lsb) && poc.Prev() == h.lsb
    ensures count.Some? && !IsRestart266(t) ==>
      && count == Some(Closest(old(poc.Prev()), h.lsb, log2Poc))
      && poc.Prev() == if IsReference266(t, tid, h.nonRef) then count.value else old(poc.Prev())
  {
    hide Unpack, Strip, Follows, UeCode, Bin, Pow2, Poc.Valid, Closest, BitReader.InBuffer, IsReference266, Order266;
    if log2Poc == 0 { return None; }
    var b := OpenNal(nal, 16, Bits266(h, log2Poc));
    b.Skip(16);
    InBuffer32(b);
    var inSlice := ReadFlag(b, h.inSlice, if h.inSlice then Fields266(h, log2Poc) else []);
    if !inSlice { return None; }
    ghost var order := Order266(h, log2Poc);
    InBuffer32(b);
    var gdrOrIrap := ReadFlag(b, h.gdrOrIrap, [h.nonRef] + ((if h.gdrOrIrap then [h.gdr] else []) + order));
    InBuffer32(b);
    var nonRef := ReadFlag(b, h.nonRef, (if h.gdrOrIrap then [h.gdr] else []) + order);
    SkipFlag(b, gdrOrIrap, h.gdr, order);
    var lsb := OrderLsb(b, log2Poc, h);
    if IsRestart266(t) {
      poc.Reset(lsb);
      RestartValid(poc, lsb, log2Poc);
      return Some(lsb);
    }
    var n := poc.Full(lsb, log2Poc, IsReference266(t, tid, nonRef));
    count := Some(n);
  }

  method OrderLsb(b: BitReader, log2Poc: nat, ghost h: Head266) returns (lsb: nat)
    requires |b.d| == 32 && b.pos + |Order266(h, log2Poc)| <= 192 && Follows(Unpack(b.d), b.pos, Order266(h, log2Poc))
    requires h.ppsId < SHORT && h.lsb < Pow2(log2Poc) && 1 <= log2Poc <= 32
    modifies b
    ensures lsb == h.lsb
  {
    hide Unpack, Follows, UeCode, Bin, Pow2, BitReader.InBuffer;
    ghost var lb := Bin(h.lsb, log2Poc);
    InBuffer32(b);
    var inter := ReadFlag(b, h.inter, (if h.inter then [h.intra] else []) + (UeCode(h.ppsId) + lb));
    SkipFlag(b, inter, h.intra, UeCode(h.ppsId) + lb);
    InBuffer32(b);
    var _ := ReadUe(b, h.ppsId, lb);
    InBuffer32(b);
    lsb := ReadBits(b, log2Poc, h.lsb);
  }
}
