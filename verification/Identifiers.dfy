/** The identifiers as they appear in a file, octet by octet: the tables of sections 5 and 27 of RFC 9559. */
module Identifiers {
  import opened Bytes
  import opened Ebml
  import opened EbmlRead
  import opened Chapters
  import opened ChapterRead
  import opened Blocks
  import opened Layouts
  import opened Headers

  lemma FourOctetId(a: byte, b: byte, c: byte, d: byte)
    requires 0x10 <= a < 0x20
    ensures var id: int := ((a as int * 0x100 + b) * 0x100 + c) * 0x100 + d;
            IsId(id) && Id(id) == [a, b, c, d]
  {
    hide IdSize, BeBytes;
    var id: int := ((a as int * 0x100 + b) * 0x100 + c) * 0x100 + d;
    assert IsId(id);
    IdBits(id);
    FourOctets(a, b, c, d);
  }

  lemma FourOctets(a: byte, b: byte, c: byte, d: byte)
    ensures BeBytes(((a as int * 0x100 + b) * 0x100 + c) * 0x100 + d, 4) == [a, b, c, d]
  {
    var y: int := a as int * 0x100 + b;
    var z: int := y * 0x100 + c;
    Appended(z, d, 3);
    Appended(y, c, 2);
    Appended(a, b, 1);
    Appended(0, a, 0);
    assert BeBytes(0, 0) == [];
  }

  lemma Appended(x: nat, b: byte, n: nat)
    ensures BeBytes(x * 0x100 + b, n + 1) == BeBytes(x, n) + [b]
  {
    assert (x * 0x100 + b) / 256 == x && (x * 0x100 + b) % 256 == b;
  }

  lemma TwoOctetId(a: byte, b: byte)
    requires 0x40 <= a < 0x80
    ensures var id: int := a as int * 0x100 + b; IsId(id) && Id(id) == [a, b]
  {
    hide IdSize, BeBytes;
    var id: int := a as int * 0x100 + b;
    assert IsId(id);
    IdBits(id);
    Appended(a, b, 1);
    Appended(0, a, 0);
    NoOctets();
  }

  lemma NoOctets()
    ensures BeBytes(0, 0) == []
  {}

  lemma OneOctetId(a: byte)
    requires 0x80 <= a
    ensures Id(a) == [a]
  {
    hide IdSize;
    IdBits(a);
    assert BeBytes(a, 1) == BeBytes(0, 0) + [a];
  }

  /** The elements of a file and of its segment. */
  lemma TopLevel()
    ensures Id(INFO_ID) == [0x15, 0x49, 0xA9, 0x66]
    ensures Id(TRACKS_ID) == [0x16, 0x54, 0xAE, 0x6B]
    ensures Id(TAGS_ID) == [0x12, 0x54, 0xC3, 0x67]
    ensures Id(SEGMENT_ID) == [0x18, 0x53, 0x80, 0x67]
    ensures Id(CLUSTER_ID) == [0x1F, 0x43, 0xB6, 0x75]
    ensures Id(CUES_ID) == [0x1C, 0x53, 0xBB, 0x6B]
    ensures Id(SEEK_HEAD_ID) == [0x11, 0x4D, 0x9B, 0x74]
    ensures Id(CHAPTERS_ID) == [0x10, 0x43, 0xA7, 0x70]
    ensures Id(EBML_MAGIC) == [0x1A, 0x45, 0xDF, 0xA3]
    ensures Id(SEGMENT) == [0x18, 0x53, 0x80, 0x67]
    ensures Id(CLUSTER) == [0x1F, 0x43, 0xB6, 0x75]
  {
    hide Id, IsId;
    FourOctetId(0x15, 0x49, 0xA9, 0x66);
    FourOctetId(0x16, 0x54, 0xAE, 0x6B);
    FourOctetId(0x12, 0x54, 0xC3, 0x67);
    FourOctetId(0x18, 0x53, 0x80, 0x67);
    FourOctetId(0x1F, 0x43, 0xB6, 0x75);
    FourOctetId(0x1C, 0x53, 0xBB, 0x6B);
    FourOctetId(0x11, 0x4D, 0x9B, 0x74);
    FourOctetId(0x10, 0x43, 0xA7, 0x70);
    FourOctetId(0x1A, 0x45, 0xDF, 0xA3);
  }

  /** Elements with identifiers of two octets. */
  lemma Long()
    ensures Id(CUE_BLOCK_NUMBER) == [0x53, 0x78]
    ensures Id(SEEK_MASTER_ID) == [0x4D, 0xBB]
    ensures Id(SEEK_ID) == [0x53, 0xAB]
    ensures Id(SEEK_POSITION) == [0x53, 0xAC]
    ensures Id(EDITION_ENTRY) == [0x45, 0xB9]
    ensures Id(EDITION_UID) == [0x45, 0xBC]
    ensures Id(EDITION_FLAG_HIDDEN) == [0x45, 0xBD]
    ensures Id(EDITION_FLAG_DEFAULT) == [0x45, 0xDB]
    ensures Id(CHAPTER_UID) == [0x73, 0xC4]
    ensures Id(CHAPTER_FLAG_ENABLED) == [0x45, 0x98]
    ensures Id(CHAP_LANG_IETF) == [0x43, 0x7D]
    ensures Id(DISCARD_PADDING) == [0x75, 0xA2]
  {
    hide Id, IsId;
    TwoOctetId(0x53, 0x78);
    TwoOctetId(0x4D, 0xBB);
    TwoOctetId(0x53, 0xAB);
    TwoOctetId(0x53, 0xAC);
    TwoOctetId(0x45, 0xB9);
    TwoOctetId(0x45, 0xBC);
    TwoOctetId(0x45, 0xBD);
    TwoOctetId(0x45, 0xDB);
    TwoOctetId(0x73, 0xC4);
    TwoOctetId(0x45, 0x98);
    TwoOctetId(0x43, 0x7D);
    TwoOctetId(0x75, 0xA2);
  }

  /** Elements with identifiers of one octet. */
  lemma Short()
    ensures Id(TIMESTAMP_ID) == [0xE7]
    ensures Id(POSITION_ID) == [0xA7]
    ensures Id(PREV_SIZE_ID) == [0xAB]
    ensures Id(CUE_POINT) == [0xBB]
    ensures Id(CUE_TIME) == [0xB3]
    ensures Id(CUE_TRACK_POSITIONS) == [0xB7]
    ensures Id(CUE_TRACK) == [0xF7]
    ensures Id(CUE_CLUSTER_POSITION) == [0xF1]
    ensures Id(CUE_RELATIVE_POSITION) == [0xF0]
    ensures Id(CUE_DURATION) == [0xB2]
    ensures Id(CUE_CODEC_STATE) == [0xEA]
    ensures Id(CHAPTER_ATOM) == [0xB6]
    ensures Id(CHAPTER_TIME_START) == [0x91]
    ensures Id(CHAPTER_TIME_END) == [0x92]
    ensures Id(CHAPTER_FLAG_HIDDEN) == [0x98]
    ensures Id(CHAPTER_DISPLAY) == [0x80]
    ensures Id(CHAP_STRING) == [0x85]
    ensures Id(BLOCK_GROUP_ID) == [0xA0]
    ensures Id(BLOCK_ID) == [0xA1]
    ensures Id(SIMPLE_BLOCK_ID) == [0xA3]
    ensures Id(BLOCK_DURATION) == [0x9B]
    ensures Id(REFERENCE_BLOCK) == [0xFB]
    ensures Id(CRC_ID) == [0xBF]
  {
    hide Id, IsId;
    OneOctetId(0xE7);
    OneOctetId(0xA7);
    OneOctetId(0xAB);
    OneOctetId(0xBB);
    OneOctetId(0xB3);
    OneOctetId(0xB7);
    OneOctetId(0xF7);
    OneOctetId(0xF1);
    OneOctetId(0xF0);
    OneOctetId(0xB2);
    OneOctetId(0xEA);
    OneOctetId(0xB6);
    OneOctetId(0x91);
    OneOctetId(0x92);
    OneOctetId(0x98);
    OneOctetId(0x80);
    OneOctetId(0x85);
    OneOctetId(0xA0);
    OneOctetId(0xA1);
    OneOctetId(0xA3);
    OneOctetId(0x9B);
    OneOctetId(0xFB);
    OneOctetId(0xBF);
  }

  /** A length below 127 is one octet, and one below 16383 two, marked by its first set bit. */
  lemma ShortLengths(v: nat)
    ensures v < 0x7F ==> Vint(v) == [0x80 + v]
    ensures 0x7F <= v < 0x3FFF ==> Vint(v) == [0x40 + v / 0x100, v % 0x100]
  {
    hide VintSize;
    if v < 0x7F { SmallVint(v); }
    else if v < 0x3FFF {
      TwoOctets(v);
      assert BeBytes(0x4000 + v, 2) == BeBytes((0x4000 + v) / 0x100, 1) + [(0x4000 + v) % 0x100];
      assert BeBytes((0x4000 + v) / 0x100, 1) == BeBytes(0, 0) + [(0x4000 + v) / 0x100];
    }
  }

  lemma TwoOctets(v: nat)
    requires 0x7F <= v < 0x3FFF
    ensures VintSize(v) == 2 && Pow2(14) == 0x4000
  {
    Pow2Values();
    VintSizeRange(v);
    VintSizeLeast(v, 2);
    VintSizeLeast(v, 1);
  }
}
