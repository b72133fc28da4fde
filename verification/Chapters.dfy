/** The Chapters element: its planned size and the writer. */
module Chapters {
  import opened Bytes
  import opened Ebml
  import opened Crc

  const CHAPTERS_ID: nat := 0x1043_A770
  const EDITION_ENTRY: nat := 0x45B9
  const EDITION_UID: nat := 0x45BC
  const EDITION_FLAG_HIDDEN: nat := 0x45BD
  const EDITION_FLAG_DEFAULT: nat := 0x45DB
  const CHAPTER_ATOM: nat := 0xB6
  const CHAPTER_UID: nat := 0x73C4
  const CHAPTER_TIME_START: nat := 0x91
  const CHAPTER_TIME_END: nat := 0x92
  const CHAPTER_FLAG_HIDDEN: nat := 0x98
  const CHAPTER_FLAG_ENABLED: nat := 0x4598
  const CHAPTER_DISPLAY: nat := 0x80
  const CHAP_STRING: nat := 0x85
  const CHAP_LANG_IETF: nat := 0x437D

  datatype ChapterEntry = ChapterEntry(uid: u64, start_ns: u64, end_ns: u64, title: seq<byte>, lang: seq<byte>)

  // ---- planned sizes

  function DisplaySize(title: seq<byte>, lang: seq<byte>): nat
  {
    ElemSize(CHAP_STRING, |title|) + ElemSize(CHAP_LANG_IETF, |lang|)
  }

  function AtomSize(a: ChapterEntry): nat
  {
    UintElemSize(CHAPTER_UID, a.uid) + UintElemSize(CHAPTER_TIME_START, a.start_ns)
    + (if a.end_ns > a.start_ns then UintElemSize(CHAPTER_TIME_END, a.end_ns) else 0)
    + UintElemSize(CHAPTER_FLAG_HIDDEN, 0) + UintElemSize(CHAPTER_FLAG_ENABLED, 1)
    + (if a.title != [] then ElemSize(CHAPTER_DISPLAY, DisplaySize(a.title, a.lang)) else 0)
  }

  function AtomsSize(atoms: seq<ChapterEntry>): nat
  {
    if |atoms| == 0 then 0 else ElemSize(CHAPTER_ATOM, AtomSize(atoms[0])) + AtomsSize(atoms[1..])
  }

  function EditionSize(editionUid: u64, atoms: seq<ChapterEntry>): nat
  {
    UintElemSize(EDITION_UID, editionUid) + UintElemSize(EDITION_FLAG_HIDDEN, 0)
    + UintElemSize(EDITION_FLAG_DEFAULT, 0) + AtomsSize(atoms)
  }

  function ChaptersSize(editionUid: u64, atoms: seq<ChapterEntry>): nat
  {
    ElemSize(CHAPTERS_ID, CRC_ELEMENT_LEN + ElemSize(EDITION_ENTRY, EditionSize(editionUid, atoms)))
  }

  // ---- the octets

  function DisplayContent(title: seq<byte>, lang: seq<byte>): seq<byte>
  {
    Elem(CHAP_STRING, title) + Elem(CHAP_LANG_IETF, lang)
  }

  function AtomTimes(a: ChapterEntry): seq<byte>
  {
    UintElem(CHAPTER_UID, a.uid) + UintElem(CHAPTER_TIME_START, a.start_ns) + AtomEnd(a)
  }

  function AtomEnd(a: ChapterEntry): seq<byte>
  {
    if a.end_ns > a.start_ns then UintElem(CHAPTER_TIME_END, a.end_ns) else []
  }

  function AtomDisplay(a: ChapterEntry): seq<byte>
  {
    if a.title != [] then Elem(CHAPTER_DISPLAY, DisplayContent(a.title, a.lang)) else []
  }

  function AtomContent(a: ChapterEntry): seq<byte>
  {
    AtomTimes(a) + (UintElem(CHAPTER_FLAG_HIDDEN, 0) + UintElem(CHAPTER_FLAG_ENABLED, 1)) + AtomDisplay(a)
  }

  function AtomsBytes(atoms: seq<ChapterEntry>): seq<byte>
  {
    if |atoms| == 0 then [] else Elem(CHAPTER_ATOM, AtomContent(atoms[0])) + AtomsBytes(atoms[1..])
  }

  function EditionHead(editionUid: u64): seq<byte>
  {
    UintElem(EDITION_UID, editionUid) + UintElem(EDITION_FLAG_HIDDEN, 0) + UintElem(EDITION_FLAG_DEFAULT, 0)
  }

  function EditionContent(editionUid: u64, atoms: seq<ChapterEntry>): seq<byte>
  {
    EditionHead(editionUid) + AtomsBytes(atoms)
  }

  /** Everything the checksum covers, behind the checksum. */
  function ChaptersContent(editionUid: u64, atoms: seq<ChapterEntry>): seq<byte>
  {
    var edition := Elem(EDITION_ENTRY, EditionContent(editionUid, atoms));
    CrcElem(Crc32(edition)) + edition
  }

  // ---- planned equals written

  lemma AtomSizeIsLength(a: ChapterEntry)
    ensures |AtomContent(a)| == AtomSize(a)
    ensures |AtomContent(a)| == |AtomTimes(a)| + |UintElem(CHAPTER_FLAG_HIDDEN, 0) + UintElem(CHAPTER_FLAG_ENABLED, 1)|
            + |AtomDisplay(a)|
  {
    hide UintElem, UintElemSize, VintSize, IdSize, Elem;
    UintElemLen(CHAPTER_UID, a.uid);
    UintElemLen(CHAPTER_TIME_START, a.start_ns);
    UintElemLen(CHAPTER_TIME_END, a.end_ns);
    UintElemLen(CHAPTER_FLAG_HIDDEN, 0);
    UintElemLen(CHAPTER_FLAG_ENABLED, 1);
  }

  lemma {:induction false} AtomsSizeIsLength(atoms: seq<ChapterEntry>)
    ensures |AtomsBytes(atoms)| == AtomsSize(atoms)
  {
    hide VintSize, IdSize, UintSize, Vint, Id, BeBytes;
    if |atoms| > 0 {
      AtomSizeIsLength(atoms[0]);
      AtomsSizeIsLength(atoms[1..]);
    }
  }

  lemma EditionSizeIsLength(editionUid: u64, atoms: seq<ChapterEntry>)
    ensures |EditionContent(editionUid, atoms)| == EditionSize(editionUid, atoms)
    ensures |EditionHead(editionUid)| + AtomsSize(atoms) == EditionSize(editionUid, atoms)
  {
    hide VintSize, IdSize, UintSize, Vint, Id, BeBytes;
    UintElemLen(EDITION_UID, editionUid);
    UintElemLen(EDITION_FLAG_HIDDEN, 0);
    UintElemLen(EDITION_FLAG_DEFAULT, 0);
    AtomsSizeIsLength(atoms);
  }

  /** The planned size is exactly the octets of the element. */
  lemma ChaptersSizeIsLength(editionUid: u64, atoms: seq<ChapterEntry>)
    ensures |Elem(CHAPTERS_ID, ChaptersContent(editionUid, atoms))| == ChaptersSize(editionUid, atoms)
    ensures |ChaptersContent(editionUid, atoms)| == CRC_ELEMENT_LEN
            + ElemSize(EDITION_ENTRY, EditionSize(editionUid, atoms))
  {
    hide VintSize, IdSize, UintSize, Vint, Id, BeBytes, EditionContent, EditionSize, Crc32, CrcElem;
    EditionSizeIsLength(editionUid, atoms);
  }

  // ---- writers

  method WriteDisplay(out: array<byte>, at: nat, title: seq<byte>, lang: seq<byte>) returns (n: nat)
    requires ElemSize(CHAPTER_DISPLAY, DisplaySize(title, lang)) < SIZE_LIMIT
             && at + ElemSize(CHAPTER_DISPLAY, DisplaySize(title, lang)) <= out.Length
    modifies out
    ensures n == ElemSize(CHAPTER_DISPLAY, DisplaySize(title, lang))
    ensures Stored(old(out[..]), out[..], at, Elem(CHAPTER_DISPLAY, DisplayContent(title, lang)))
  {
    hide VintSize, IdSize, Head, Stored;
    ghost var s0 := out[..];
    n := WriteMasterHead(CHAPTER_DISPLAY, DisplaySize(title, lang), out, at);
    ghost var s1 := out[..];
    var m := WriteDisplayContent(out, at + n, title, lang);
    StoredThen(s0, s1, out[..], at, Head(CHAPTER_DISPLAY, DisplaySize(title, lang)), DisplayContent(title, lang));
    n := n + m;
  }

  method WriteDisplayContent(out: array<byte>, at: nat, title: seq<byte>, lang: seq<byte>) returns (n: nat)
    requires DisplaySize(title, lang) < SIZE_LIMIT && at + DisplaySize(title, lang) <= out.Length
    modifies out
    ensures n == DisplaySize(title, lang) == |DisplayContent(title, lang)|
    ensures Stored(old(out[..]), out[..], at, DisplayContent(title, lang))
  {
    hide ElemSize, Elem, Stored;
    ElemLonger(CHAP_STRING, title);
    ElemLonger(CHAP_LANG_IETF, lang);
    n := WriteBytes(CHAP_STRING, title, out, at);
    ghost var s1 := out[..];
    var m := WriteBytes(CHAP_LANG_IETF, lang, out, at + n);
    StoredThen(old(out[..]), s1, out[..], at, Elem(CHAP_STRING, title), Elem(CHAP_LANG_IETF, lang));
    n := n + m;
  }

  method WriteAtomTimes(out: array<byte>, at: nat, a: ChapterEntry) returns (n: nat)
    requires at + |AtomTimes(a)| <= out.Length
    modifies out
    ensures n == |AtomTimes(a)| && Stored(old(out[..]), out[..], at, AtomTimes(a))
  {
    hide Stored, UintElem, UintElemSize, Elem, ElemSize, AtomEnd;
    UintElemLen(CHAPTER_UID, a.uid);
    UintElemLen(CHAPTER_TIME_START, a.start_ns);
    ghost var s0 := out[..];
    n := WriteUint(CHAPTER_UID, a.uid, out, at);
    ghost var s1 := out[..];
    var m := WriteUint(CHAPTER_TIME_START, a.start_ns, out, at + n);
    ghost var s2 := out[..];
    n := n + m;
    m := WriteAtomEnd(out, at + n, a);
    StoredThen3(s0, s1, s2, out[..], at, UintElem(CHAPTER_UID, a.uid), UintElem(CHAPTER_TIME_START, a.start_ns),
                AtomEnd(a));
    n := n + m;
  }

  method WriteAtomEnd(out: array<byte>, at: nat, a: ChapterEntry) returns (n: nat)
    requires at + |AtomEnd(a)| <= out.Length
    modifies out
    ensures n == |AtomEnd(a)| && Stored(old(out[..]), out[..], at, AtomEnd(a))
  {
    hide UintElem, UintElemSize;
    UintElemLen(CHAPTER_TIME_END, a.end_ns);
    n := 0;
    if a.end_ns > a.start_ns { n := WriteUint(CHAPTER_TIME_END, a.end_ns, out, at); }
  }

  method WriteFlags(out: array<byte>, at: nat) returns (n: nat)
    requires at + |UintElem(CHAPTER_FLAG_HIDDEN, 0) + UintElem(CHAPTER_FLAG_ENABLED, 1)| <= out.Length
    modifies out
    ensures n == |UintElem(CHAPTER_FLAG_HIDDEN, 0) + UintElem(CHAPTER_FLAG_ENABLED, 1)|
    ensures Stored(old(out[..]), out[..], at, UintElem(CHAPTER_FLAG_HIDDEN, 0) + UintElem(CHAPTER_FLAG_ENABLED, 1))
  {
    hide Stored, UintElem, UintElemSize;
    UintElemLen(CHAPTER_FLAG_HIDDEN, 0);
    UintElemLen(CHAPTER_FLAG_ENABLED, 1);
    n := WriteUint(CHAPTER_FLAG_HIDDEN, 0, out, at);
    ghost var s1 := out[..];
    var m := WriteUint(CHAPTER_FLAG_ENABLED, 1, out, at + n);
    StoredThen(old(out[..]), s1, out[..], at, UintElem(CHAPTER_FLAG_HIDDEN, 0), UintElem(CHAPTER_FLAG_ENABLED, 1));
    n := n + m;
  }

  method WriteAtomContent(out: array<byte>, at: nat, a: ChapterEntry) returns (n: nat)
    requires AtomSize(a) < SIZE_LIMIT && at + AtomSize(a) <= out.Length
    modifies out
    ensures n == AtomSize(a) && Stored(old(out[..]), out[..], at, AtomContent(a))
  {
    hide UintElem, UintElemSize, Stored, AtomTimes, AtomDisplay, AtomSize, Elem, ElemSize, DisplayContent;
    AtomSizeIsLength(a);
    ghost var flags := UintElem(CHAPTER_FLAG_HIDDEN, 0) + UintElem(CHAPTER_FLAG_ENABLED, 1);
    ghost var s0 := out[..];
    n := WriteAtomTimes(out, at, a);
    ghost var s1 := out[..];
    var m := WriteFlags(out, at + n);
    ghost var s2 := out[..];
    StoredThen(s0, s1, s2, at, AtomTimes(a), flags);
    n := n + m;
    m := WriteAtomDisplay(out, at + n, a);
    StoredThen(s0, s2, out[..], at, AtomTimes(a) + flags, AtomDisplay(a));
    n := n + m;
  }

  method WriteAtomDisplay(out: array<byte>, at: nat, a: ChapterEntry) returns (n: nat)
    requires |AtomDisplay(a)| < SIZE_LIMIT && at + |AtomDisplay(a)| <= out.Length
    modifies out
    ensures n == |AtomDisplay(a)| && Stored(old(out[..]), out[..], at, AtomDisplay(a))
  {
    hide Elem, ElemSize, Stored;
    StoredNothing(out[..], at);
    n := 0;
    if a.title != [] { n := WriteDisplay(out, at, a.title, a.lang); }
  }

  method WriteAtom(out: array<byte>, at: nat, a: ChapterEntry) returns (n: nat)
    requires ElemSize(CHAPTER_ATOM, AtomSize(a)) < SIZE_LIMIT && at + ElemSize(CHAPTER_ATOM, AtomSize(a)) <= out.Length
    modifies out
    ensures n == ElemSize(CHAPTER_ATOM, AtomSize(a))
    ensures Stored(old(out[..]), out[..], at, Elem(CHAPTER_ATOM, AtomContent(a)))
  {
    hide VintSize, IdSize, Head, Stored, AtomContent, AtomSize;
    AtomSizeIsLength(a);
    n := WriteMasterHead(CHAPTER_ATOM, AtomSize(a), out, at);
    ghost var s1 := out[..];
    var m := WriteAtomContent(out, at + n, a);
    StoredThen(old(out[..]), s1, out[..], at, Head(CHAPTER_ATOM, AtomSize(a)), AtomContent(a));
    n := n + m;
  }

  method WriteEditionHead(editionUid: u64, out: array<byte>, at: nat) returns (n: nat)
    requires at + |EditionHead(editionUid)| <= out.Length
    modifies out
    ensures n == |EditionHead(editionUid)| && Stored(old(out[..]), out[..], at, EditionHead(editionUid))
  {
    hide Stored, UintElem, UintElemSize, Elem, ElemSize;
    UintElemLen(EDITION_UID, editionUid);
    UintElemLen(EDITION_FLAG_HIDDEN, 0);
    UintElemLen(EDITION_FLAG_DEFAULT, 0);
    ghost var s0 := out[..];
    n := WriteUint(EDITION_UID, editionUid, out, at);
    ghost var s1 := out[..];
    var m := WriteUint(EDITION_FLAG_HIDDEN, 0, out, at + n);
    ghost var s2 := out[..];
    n := n + m;
    m := WriteUint(EDITION_FLAG_DEFAULT, 0, out, at + n);
    StoredThen3(s0, s1, s2, out[..], at, UintElem(EDITION_UID, editionUid), UintElem(EDITION_FLAG_HIDDEN, 0),
                UintElem(EDITION_FLAG_DEFAULT, 0));
    n := n + m;
  }

  lemma {:induction false} AtomsBytesSnoc(atoms: seq<ChapterEntry>, k: nat)
    requires k < |atoms|
    ensures AtomsBytes(atoms[..k + 1]) == AtomsBytes(atoms[..k]) + Elem(CHAPTER_ATOM, AtomContent(atoms[k]))
    ensures AtomsSize(atoms[..k + 1]) == AtomsSize(atoms[..k]) + ElemSize(CHAPTER_ATOM, AtomSize(atoms[k]))
  {
    hide VintSize, IdSize, UintSize, Vint, Id, BeBytes, Elem, ElemSize, AtomContent, AtomSize;
    if k > 0 {
      assert atoms[..k + 1][1..] == atoms[1..][..k];
      assert atoms[..k][1..] == atoms[1..][..k - 1];
      AtomsBytesSnoc(atoms[1..], k - 1);
    } else {
      assert atoms[..1][1..] == [] && atoms[..0] == [];
    }
  }

  lemma {:induction false} AtomsSizeMono(atoms: seq<ChapterEntry>, k: nat)
    requires k <= |atoms|
    ensures AtomsSize(atoms[..k]) <= AtomsSize(atoms)
    decreases |atoms| - k
  {
    hide VintSize, IdSize, UintSize, Vint, Id, BeBytes, Elem, ElemSize, AtomContent, AtomSize;
    if k < |atoms| {
      AtomsBytesSnoc(atoms, k);
      AtomsSizeMono(atoms, k + 1);
    } else {
      assert atoms[..k] == atoms;
    }
  }

  method WriteAtoms(atoms: seq<ChapterEntry>, out: array<byte>, at: nat) returns (n: nat)
    requires AtomsSize(atoms) < SIZE_LIMIT && at + AtomsSize(atoms) <= out.Length
    modifies out
    ensures n == AtomsSize(atoms) && Stored(old(out[..]), out[..], at, AtomsBytes(atoms))
  {
    hide Stored, Elem, ElemSize, AtomContent, AtomSize;
    ghost var s0 := out[..];
    n := 0;
    StoredNothing(s0, at);
    for k := 0 to |atoms|
      invariant n == AtomsSize(atoms[..k]) && Stored(s0, out[..], at, AtomsBytes(atoms[..k]))
    {
      ghost var s1 := out[..];
      AtomsSizeIsLength(atoms[..k]);
      AtomsBytesSnoc(atoms, k);
      AtomsSizeMono(atoms, k + 1);
      var m := WriteAtom(out, at + n, atoms[k]);
      StoredThen(s0, s1, out[..], at, AtomsBytes(atoms[..k]), Elem(CHAPTER_ATOM, AtomContent(atoms[k])));
      n := n + m;
    }
    assert atoms[..|atoms|] == atoms;
  }

  method WriteEdition(editionUid: u64, atoms: seq<ChapterEntry>, out: array<byte>, at: nat) returns (n: nat)
    requires ElemSize(EDITION_ENTRY, EditionSize(editionUid, atoms)) < SIZE_LIMIT
             && at + ElemSize(EDITION_ENTRY, EditionSize(editionUid, atoms)) <= out.Length
    modifies out
    ensures n == ElemSize(EDITION_ENTRY, EditionSize(editionUid, atoms))
    ensures Stored(old(out[..]), out[..], at, Elem(EDITION_ENTRY, EditionContent(editionUid, atoms)))
  {
    hide VintSize, IdSize, Head, Stored, EditionHead, AtomsBytes, AtomsSize, EditionSize;
    EditionSizeIsLength(editionUid, atoms);
    ghost var edition := EditionSize(editionUid, atoms);
    ghost var s0 := out[..];
    n := WriteMasterHead(EDITION_ENTRY, EditionSize(editionUid, atoms), out, at);
    ghost var s1 := out[..];
    var m := WriteEditionHead(editionUid, out, at + n);
    ghost var s2 := out[..];
    n := n + m;
    m := WriteAtoms(atoms, out, at + n);
    StoredThen(s1, s2, out[..], at + |Head(EDITION_ENTRY, edition)|, EditionHead(editionUid), AtomsBytes(atoms));
    StoredThen(s0, s1, out[..], at, Head(EDITION_ENTRY, edition), EditionContent(editionUid, atoms));
    n := n + m;
  }

  /** The element lands at `at` with its checksum over everything that follows it. */
  method WriteChapters(out: array<byte>, at: nat, editionUid: u64, atoms: seq<ChapterEntry>) returns (n: nat)
    requires ChaptersSize(editionUid, atoms) < SIZE_LIMIT && at + ChaptersSize(editionUid, atoms) <= out.Length
    modifies out
    ensures n == ChaptersSize(editionUid, atoms)
    ensures Stored(old(out[..]), out[..], at, Elem(CHAPTERS_ID, ChaptersContent(editionUid, atoms)))
  {
    hide VintSize, IdSize, Head, Stored, ElemSize, EditionContent, EditionSize, CrcElem, Crc32, ChaptersSize;
    ghost var edition := Elem(EDITION_ENTRY, EditionContent(editionUid, atoms));
    var content := CRC_ELEMENT_LEN + ElemSize(EDITION_ENTRY, EditionSize(editionUid, atoms));
    ChaptersParts(editionUid, atoms);
    n := WriteMasterHead(CHAPTERS_ID, content, out, at);
    ghost var s1 := out[..];
    var crcOffset := at + n + 2;
    var m := WriteCrcPlaceholder(out, at + n);
    ghost var s2 := out[..];
    n := n + m;
    var childrenStart := at + n;
    m := WriteEdition(editionUid, atoms, out, at + n);
    n := n + m;
    SealCrc(out, old(out[..]), s1, s2, at, Head(CHAPTERS_ID, content), crcOffset, childrenStart, at + n, edition);
  }

  lemma ChaptersParts(editionUid: u64, atoms: seq<ChapterEntry>)
    ensures var edition := Elem(EDITION_ENTRY, EditionContent(editionUid, atoms));
            var content := CRC_ELEMENT_LEN + ElemSize(EDITION_ENTRY, EditionSize(editionUid, atoms));
            && |edition| + CRC_ELEMENT_LEN == content == |ChaptersContent(editionUid, atoms)|
            && ChaptersSize(editionUid, atoms) == |Head(CHAPTERS_ID, content)| + content
            && Elem(CHAPTERS_ID, ChaptersContent(editionUid, atoms))
               == Head(CHAPTERS_ID, content) + (CrcElem(Crc32(edition)) + edition)
  {
    hide VintSize, IdSize, Head, EditionContent, EditionSize, Crc32, CrcElem;
    EditionSizeIsLength(editionUid, atoms);
  }
}
