/**
 * What a NAL unit is, from its header: the names and header octets of H.264, H.265 and H.266, and that the
 * classification goes by them.
 */
module NalKinds {
  import opened Bytes
  import opened SliceHeaders
  import opened NalStates

  /** What is coded, with what the parameter sets say about slice headers. */
  datatype Coding = H264(log2FrameNum: nat, log2: nat) | H265(sets: Sets265) | H266(log2: nat)

  function Log2(p: Coding): nat { match p case H264(_, n) => n case H265(s) => s.log2Poc case H266(n) => n }

  predicate CodingOk(p: Coding) { 4 <= Log2(p) <= if p.H266? then 19 else 16 }

  // ---- classifying by header

  function Type265(nal: seq<byte>): nat
    requires |nal| >= 1
  {
    (nal[0] / 2) % 64
  }

  function Type266(nal: seq<byte>): nat
    requires |nal| >= 2
  {
    (nal[1] / 8) % 32
  }

  /** nuh_temporal_id_plus1 less one. */
  function TemporalId(nal: seq<byte>): int
    requires |nal| >= 2
  {
    var b: int := nal[1];
    b % 8 - 1
  }

  function Kind264(nal: seq<byte>): Kind
    requires |nal| >= 1
  {
    var t := nal[0] % 32;
    if t == 7 then Param(1) else if t == 8 then Param(2) else if t == 1 || t == 5 then Vcl else Drop
  }

  function Kind265(nal: seq<byte>): Kind
    requires |nal| >= 1
  {
    var t := Type265(nal);
    if t == 32 then Param(0) else if t == 33 then Param(1) else if t == 34 then Param(2)
    else if t <= 31 then Vcl else Drop
  }

  function Kind266(nal: seq<byte>): Kind
    requires |nal| >= 2
  {
    var t := Type266(nal);
    if t == 14 then Param(0) else if t == 15 then Param(1) else if t == 16 then Param(2)
    else if 17 <= t <= 19 then Prefix else if t <= 11 then Vcl else Drop
  }

  /** The classification; a unit shorter than its header is none. */
  function KindOf(p: Coding, nal: seq<byte>): (k: Kind)
    ensures k.Param? ==> k.k < 3
  {
    if |nal| < HeaderLen(p) then Drop
    else match p case H264(_, _) => Kind264(nal) case H265(_) => Kind265(nal) case H266(_) => Kind266(nal)
  }

  function HeaderLen(p: Coding): nat { if p.H264? then 1 else 2 }

  function CodecOf(p: Coding): Codec { nal => KindOf(p, nal) }

  // ---- H.264: section 7.3.1 and Table 7-1

  datatype Name264 =
    | NonIdrSlice | PartitionA | PartitionB | PartitionC | IdrSlice | Sei264 | Sps264 | Pps264 | Delimiter264
    | EndOfSequence264 | EndOfStream264 | Filler264 | SpsExtension | PrefixNal | SubsetSps | DepthSps
    | AuxiliarySlice | ExtensionSlice | DepthSlice | Unnamed264

  function Named264(t: nat): Name264
  {
    match t
    case 1 => NonIdrSlice
    case 2 => PartitionA
    case 3 => PartitionB
    case 4 => PartitionC
    case 5 => IdrSlice
    case 6 => Sei264
    case 7 => Sps264
    case 8 => Pps264
    case 9 => Delimiter264
    case 10 => EndOfSequence264
    case 11 => EndOfStream264
    case 12 => Filler264
    case 13 => SpsExtension
    case 14 => PrefixNal
    case 15 => SubsetSps
    case 16 => DepthSps
    case 19 => AuxiliarySlice
    case 20 => ExtensionSlice
    case 21 => DepthSlice
    case _ => Unnamed264
  }

  /** forbidden_zero_bit, nal_ref_idc and nal_unit_type. */
  function Header264(f: nat, refIdc: nat, t: nat): (h: seq<byte>)
    requires f < 2 && refIdc < 4 && t < 32
    ensures |h| == 1
  {
    [0x80 * f + 0x20 * refIdc + t]
  }

  /** Unpartitioned slices of the base view are coded pictures; SPS and PPS are the parameter sets. */
  function Use264(n: Name264): Kind
  {
    match n
    case Sps264 => Param(1)
    case Pps264 => Param(2)
    case NonIdrSlice => Vcl
    case IdrSlice => Vcl
    case _ => Drop
  }

  lemma Kind264Named(p: Coding, f: nat, refIdc: nat, t: nat, rest: seq<byte>)
    requires p.H264? && f < 2 && refIdc < 4 && t < 32
    ensures KindOf(p, Header264(f, refIdc, t) + rest) == Use264(Named264(t))
    ensures var nal := Header264(f, refIdc, t) + rest;
            (IsReference264(nal[0]) <==> refIdc != 0) && (nal[0] % 32 == 5 <==> Named264(t) == IdrSlice)
  {
    Fields264(f, refIdc, t);
  }

  lemma Fields264(f: nat, refIdc: nat, t: nat)
    requires f < 2 && refIdc < 4 && t < 32
    ensures var b: int := Header264(f, refIdc, t)[0]; b % 32 == t && (b / 32) % 4 == refIdc
  {
    assert (0x80 * f + 0x20 * refIdc + t) / 32 == 4 * f + refIdc;
  }

  // ---- H.265: section 7.3.1.2 and Table 7-1

  datatype Name265 =
    | TrailN | TrailR | TsaN | TsaR | StsaN | StsaR | RadlN | RadlR | RaslN | RaslR | ReservedN | ReservedR
    | BlaWLp | BlaWRadl | BlaNLp | IdrWRadl | IdrNLp | Cra | ReservedIrap | ReservedVcl
    | Vps265 | Sps265 | Pps265 | Delimiter265 | EndOfSequence265 | EndOfStream265 | Filler265 | PrefixSei | SuffixSei
    | Unnamed265

  function Named265(t: nat): Name265
  {
    match t
    case 0 => TrailN
    case 1 => TrailR
    case 2 => TsaN
    case 3 => TsaR
    case 4 => StsaN
    case 5 => StsaR
    case 6 => RadlN
    case 7 => RadlR
    case 8 => RaslN
    case 9 => RaslR
    case 10 => ReservedN
    case 11 => ReservedR
    case 12 => ReservedN
    case 13 => ReservedR
    case 14 => ReservedN
    case 15 => ReservedR
    case 16 => BlaWLp
    case 17 => BlaWRadl
    case 18 => BlaNLp
    case 19 => IdrWRadl
    case 20 => IdrNLp
    case 21 => Cra
    case 22 => ReservedIrap
    case 23 => ReservedIrap
    case 32 => Vps265
    case 33 => Sps265
    case 34 => Pps265
    case 35 => Delimiter265
    case 36 => EndOfSequence265
    case 37 => EndOfStream265
    case 38 => Filler265
    case 39 => PrefixSei
    case 40 => SuffixSei
    case _ => if t < 32 then ReservedVcl else Unnamed265
  }

  /** forbidden_zero_bit, nal_unit_type, nuh_layer_id and nuh_temporal_id_plus1. */
  function Header265(f: nat, t: nat, layer: nat, plus1: nat): (h: seq<byte>)
    requires f < 2 && t < 64 && layer < 64 && plus1 < 8
    ensures |h| == 2
  {
    [0x80 * f + 2 * t + layer / 32, 8 * (layer % 32) + plus1]
  }

  predicate Intra265(n: Name265)
  {
    n in {BlaWLp, BlaWRadl, BlaNLp, IdrWRadl, IdrNLp, Cra, ReservedIrap}
  }

  predicate SubLayerNonReference(n: Name265) { n in {TrailN, TsaN, StsaN, RadlN, RaslN, ReservedN} }

  predicate Leading265(n: Name265) { n in {RadlN, RadlR, RaslN, RaslR} }

  function Use265(n: Name265): Kind
  {
    match n
    case Vps265 => Param(0)
    case Sps265 => Param(1)
    case Pps265 => Param(2)
    case _ =>
      if n in {Delimiter265, EndOfSequence265, EndOfStream265, Filler265, PrefixSei, SuffixSei, Unnamed265}
      then Drop else Vcl
  }

  lemma Kind265Named(p: Coding, f: nat, t: nat, layer: nat, plus1: nat, rest: seq<byte>)
    requires p.H265? && f < 2 && t < 64 && layer < 64 && plus1 < 8
    ensures var nal := Header265(f, t, layer, plus1) + rest;
            KindOf(p, nal) == Use265(Named265(t)) && Type265(nal) == t && TemporalId(nal) == plus1 - 1
  {
    Fields265Split(f, t, layer, plus1);
    KindOfType265(t);
  }

  lemma Fields265Split(f: nat, t: nat, layer: nat, plus1: nat)
    requires f < 2 && t < 64 && layer < 64 && plus1 < 8
    ensures Type265(Header265(f, t, layer, plus1)) == t && TemporalId(Header265(f, t, layer, plus1)) == plus1 - 1
  {
    assert (0x80 * f + 2 * t + layer / 32) / 2 == 0x40 * f + t;
  }

  lemma KindOfType265(t: nat)
    requires t < 64
    ensures Use265(Named265(t))
         == if t == 32 then Param(0) else if t == 33 then Param(1) else if t == 34 then Param(2)
            else if t <= 31 then Vcl else Drop
  {}

  /** What a type says about the picture: sections 3 and 7.4.2.2 of H.265. */
  lemma Pictures265(t: nat, tid: nat)
    requires t < 64
    ensures IsIrap(t) <==> Intra265(Named265(t))
    ensures IsIdr(t) <==> Named265(t) in {IdrWRadl, IdrNLp}
    ensures IsRestart(t) <==> Named265(t) in {BlaWLp, BlaWRadl, BlaNLp, Cra}
    ensures IsReference265(t, tid) <==>
            tid == 0 && !SubLayerNonReference(Named265(t)) && !Leading265(Named265(t))
  {}

  // ---- H.266: section 7.3.1.2 and Table 5

  datatype Name266 =
    | Trail | Stsa | Radl | Rasl | ReservedVcl266 | IdrWRadl266 | IdrNLp266 | Cra266 | Gdr | ReservedIrap266
    | Opi | Dci | Vps266 | Sps266 | Pps266 | PrefixAps | SuffixAps | PictureHeader | Delimiter266
    | EndOfSequence266 | EndOfStream266 | PrefixSei266 | SuffixSei266 | Filler266 | Unnamed266

  function Named266(t: nat): Name266
  {
    match t
    case 0 => Trail
    case 1 => Stsa
    case 2 => Radl
    case 3 => Rasl
    case 4 => ReservedVcl266
    case 5 => ReservedVcl266
    case 6 => ReservedVcl266
    case 7 => IdrWRadl266
    case 8 => IdrNLp266
    case 9 => Cra266
    case 10 => Gdr
    case 11 => ReservedIrap266
    case 12 => Opi
    case 13 => Dci
    case 14 => Vps266
    case 15 => Sps266
    case 16 => Pps266
    case 17 => PrefixAps
    case 18 => SuffixAps
    case 19 => PictureHeader
    case 20 => Delimiter266
    case 21 => EndOfSequence266
    case 22 => EndOfStream266
    case 23 => PrefixSei266
    case 24 => SuffixSei266
    case 25 => Filler266
    case _ => Unnamed266
  }

  /** forbidden_zero_bit, nuh_reserved_zero_bit, nuh_layer_id, nal_unit_type and nuh_temporal_id_plus1. */
  function Header266(f: nat, reserved: nat, layer: nat, t: nat, plus1: nat): (h: seq<byte>)
    requires f < 2 && reserved < 2 && layer < 64 && t < 32 && plus1 < 8
    ensures |h| == 2
  {
    [0x80 * f + 0x40 * reserved + layer, 8 * t + plus1]
  }

  function Use266(n: Name266): Kind
  {
    match n
    case Vps266 => Param(0)
    case Sps266 => Param(1)
    case Pps266 => Param(2)
    case _ =>
      if n in {PrefixAps, SuffixAps, PictureHeader} then Prefix
      else if n in {Trail, Stsa, Radl, Rasl, ReservedVcl266, IdrWRadl266, IdrNLp266, Cra266, Gdr, ReservedIrap266}
      then Vcl else Drop
  }

  lemma Kind266Named(p: Coding, f: nat, reserved: nat, layer: nat, t: nat, plus1: nat, rest: seq<byte>)
    requires p.H266? && f < 2 && reserved < 2 && layer < 64 && t < 32 && plus1 < 8
    ensures var nal := Header266(f, reserved, layer, t, plus1) + rest;
            KindOf(p, nal) == Use266(Named266(t)) && Type266(nal) == t && TemporalId(nal) == plus1 - 1
  {
    assert (8 * t + plus1) / 8 == t;
    KindOfType266(t);
  }

  lemma KindOfType266(t: nat)
    requires t < 32
    ensures Use266(Named266(t))
         == if t == 14 then Param(0) else if t == 15 then Param(1) else if t == 16 then Param(2)
            else if 17 <= t <= 19 then Prefix else if t <= 11 then Vcl else Drop
  {}

  /** IDR, CRA and GDR pictures restart; RADL and RASL pictures are leading: section 3 of H.266. */
  lemma Pictures266(t: nat, tid: nat, nonRef: bool)
    requires t < 32
    ensures IsRestart266(t) <==> Named266(t) in {IdrWRadl266, IdrNLp266, Cra266, Gdr}
    ensures IsReference266(t, tid, nonRef) <==> tid == 0 && !nonRef && Named266(t) !in {Radl, Rasl}
  {}

  // ---- any unit

  /** The unit starts with the header of a coded slice. */
  ghost predicate CodedSlice(p: Coding, nal: seq<byte>)
  {
    match p
    case H264(_, _) =>
      exists f: nat, refIdc: nat, t: nat :: f < 2 && refIdc < 4 && t < 32
                                            && Header264(f, refIdc, t) <= nal && Use264(Named264(t)) == Vcl
    case H265(_) =>
      exists f: nat, t: nat, layer: nat, plus1: nat :: f < 2 && t < 64 && layer < 64 && plus1 < 8
                                            && Header265(f, t, layer, plus1) <= nal && Use265(Named265(t)) == Vcl
    case H266(_) =>
      exists f: nat, r: nat, layer: nat, t: nat, plus1: nat :: f < 2 && r < 2 && layer < 64 && t < 32 && plus1 < 8
                                            && Header266(f, r, layer, t, plus1) <= nal && Use266(Named266(t)) == Vcl
  }

  lemma Slice264(p: Coding, nal: seq<byte>)
    requires p.H264?
    ensures KindOf(p, nal) == Vcl <==> CodedSlice(p, nal)
  {
    hide KindOf, Use264, Named264, Header264;
    if |nal| >= 1 {
      var b: nat := nal[0];
      Octet264(b);
      assert nal == Header264(b / 0x80, (b / 32) % 4, b % 32) + nal[1..];
      Kind264Named(p, b / 0x80, (b / 32) % 4, b % 32, nal[1..]);
    } else {
      NoKind(p, nal);
    }
    forall f: nat, refIdc: nat, t: nat | f < 2 && refIdc < 4 && t < 32 && Header264(f, refIdc, t) <= nal
      ensures KindOf(p, nal) == Use264(Named264(t))
    {
      assert nal == Header264(f, refIdc, t) + nal[1..];
      Kind264Named(p, f, refIdc, t, nal[1..]);
    }
  }

  lemma Octet264(b: byte)
    ensures b / 0x80 < 2 && Header264(b / 0x80, (b / 32) % 4, b % 32) == [b]
  {}

  lemma NoKind(p: Coding, nal: seq<byte>)
    requires |nal| < HeaderLen(p)
    ensures KindOf(p, nal) == Drop
  {}

  lemma Slice265(p: Coding, nal: seq<byte>)
    requires p.H265?
    ensures KindOf(p, nal) == Vcl <==> CodedSlice(p, nal)
  {
    hide KindOf, Use265, Named265, Header265, Type265, TemporalId;
    if |nal| >= 2 {
      var b, c := nal[0], nal[1];
      Octets265(b, c);
      assert nal == Header265(b / 0x80, (b / 2) % 64, 32 * (b % 2) + c / 8, c % 8) + nal[2..];
      Kind265Named(p, b / 0x80, (b / 2) % 64, 32 * (b % 2) + c / 8, c % 8, nal[2..]);
    } else {
      NoKind(p, nal);
    }
    forall f: nat, t: nat, layer: nat, plus1: nat
      | f < 2 && t < 64 && layer < 64 && plus1 < 8 && Header265(f, t, layer, plus1) <= nal
      ensures KindOf(p, nal) == Use265(Named265(t))
    {
      assert nal == Header265(f, t, layer, plus1) + nal[2..];
      Kind265Named(p, f, t, layer, plus1, nal[2..]);
    }
  }

  lemma Octets265(b: byte, c: byte)
    ensures b / 0x80 < 2 && 32 * (b % 2) + c / 8 < 64
    ensures Header265(b / 0x80, (b / 2) % 64, 32 * (b % 2) + c / 8, c % 8) == [b, c]
  {
    FiveLow(b % 2, c / 8);
    assert (b / 2) / 64 == b / 0x80;
  }

  lemma FiveLow(high: nat, low: nat)
    requires low < 32
    ensures (32 * high + low) / 32 == high && (32 * high + low) % 32 == low
  {}

  lemma Slice266(p: Coding, nal: seq<byte>)
    requires p.H266?
    ensures KindOf(p, nal) == Vcl <==> CodedSlice(p, nal)
  {
    hide KindOf, Use266, Named266, Header266, Type266, TemporalId;
    if |nal| >= 2 {
      var b, c := nal[0], nal[1];
      Octets266(b, c);
      assert nal == Header266(b / 0x80, (b / 0x40) % 2, b % 0x40, c / 8, c % 8) + nal[2..];
      Kind266Named(p, b / 0x80, (b / 0x40) % 2, b % 0x40, c / 8, c % 8, nal[2..]);
    } else {
      NoKind(p, nal);
    }
    forall f: nat, r: nat, layer: nat, t: nat, plus1: nat
      | f < 2 && r < 2 && layer < 64 && t < 32 && plus1 < 8 && Header266(f, r, layer, t, plus1) <= nal
      ensures KindOf(p, nal) == Use266(Named266(t))
    {
      assert nal == Header266(f, r, layer, t, plus1) + nal[2..];
      Kind266Named(p, f, r, layer, t, plus1, nal[2..]);
    }
  }

  lemma Octets266(b: byte, c: byte)
    ensures b / 0x80 < 2 && c / 8 < 32
    ensures Header266(b / 0x80, (b / 0x40) % 2, b % 0x40, c / 8, c % 8) == [b, c]
  {}

  /** A unit counts as a slice exactly when its header names one. */
  lemma VclIsSlice(p: Coding, nal: seq<byte>)
    ensures KindOf(p, nal) == Vcl <==> CodedSlice(p, nal)
  {
    match p
    case H264(_, _) => Slice264(p, nal);
    case H265(_) => Slice265(p, nal);
    case H266(_) => Slice266(p, nal);
  }
}
