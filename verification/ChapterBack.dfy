/** Reading chapters as a player does: every field of every chapter comes back as it was given. */
module ChapterBack {
  import opened Bytes
  import opened Ebml
  import opened EbmlRead
  import opened Crc
  import opened Chapters
  import opened ChapterRead
  import opened BlockRead

  // ---- the reader: section 5.1.7 of RFC 9559

  datatype Display = Display(title: Option<seq<byte>>, lang: Option<seq<byte>>)

  datatype Atom = Atom(uid: Option<nat>, start: Option<nat>, end: Option<nat>, hidden: Option<nat>,
                       enabled: Option<nat>, display: Option<Display>)

  datatype Edition = Edition(uid: Option<nat>, hidden: Option<nat>, byDefault: Option<nat>, atoms: seq<Atom>)

  function ReadDisplay(kids: seq<Element>): Option<Display>
  {
    match FirstOf(kids, 0x80)
    case None => None
    case Some(d) => Some(Display(FirstOf(Children(d), 0x85), FirstOf(Children(d), 0x437D)))
  }

  function ReadAtom(kids: seq<Element>): Atom
  {
    Atom(Unsigned(FirstOf(kids, 0x73C4)), Unsigned(FirstOf(kids, 0x91)), Unsigned(FirstOf(kids, 0x92)),
         Unsigned(FirstOf(kids, 0x98)), Unsigned(FirstOf(kids, 0x4598)), ReadDisplay(kids))
  }

  function ReadAtoms(kids: seq<Element>): seq<Atom>
  {
    if |kids| == 0 then []
    else (if kids[0].id == 0xB6 then [ReadAtom(Children(kids[0].content))] else []) + ReadAtoms(kids[1..])
  }

  function ReadEdition(kids: seq<Element>): Edition
  {
    Edition(Unsigned(FirstOf(kids, 0x45BC)), Unsigned(FirstOf(kids, 0x45BD)), Unsigned(FirstOf(kids, 0x45DB)),
            ReadAtoms(kids))
  }

  /** The first edition of a Chapters element. */
  function ReadChapters(content: seq<byte>): Option<Edition>
  {
    match FirstOf(Children(content), 0x45B9) case None => None case Some(e) => Some(ReadEdition(Children(e)))
  }

  // ---- what should come back

  /** A chapter without a title has no display, and one that does not end behind its start no end. */
  function ToldAtom(a: ChapterEntry): Atom
  {
    Atom(Some(a.uid), Some(a.start_ns), if a.end_ns > a.start_ns then Some(a.end_ns) else None, Some(0), Some(1),
         if a.title != [] then Some(Display(Some(a.title), Some(a.lang))) else None)
  }

  function ToldAtoms(atoms: seq<ChapterEntry>): seq<Atom>
  {
    if |atoms| == 0 then [] else [ToldAtom(atoms[0])] + ToldAtoms(atoms[1..])
  }

  // ---- lists of children

  lemma {:induction false} FoundConcat(a: seq<Element>, b: seq<Element>, id: nat)
    ensures FirstOf(a + b, id) == if FirstOf(a, id).Some? then FirstOf(a, id) else FirstOf(b, id)
  {
    if |a| > 0 {
      assert (a + b)[1..] == a[1..] + b;
      FoundConcat(a[1..], b, id);
    } else {
      assert a + b == b;
    }
  }

  function Number(id: nat, v: u64): Element { Element(id, BeBytes(v, UintSize(v))) }

  lemma NumberBack(id: nat, v: u64, rest: seq<byte>)
    requires IsId(id)
    ensures Children(UintElem(id, v) + rest) == [Number(id, v)] + Children(rest)
    ensures Unsigned(Some(Number(id, v).content)) == Some(v as nat)
  {
    hide UintElem, Children, BeBytes, UintSize, Unsigned;
    UintBack(id, v, rest);
    UnsignedBack(v);
  }

  lemma ChapterIds()
    ensures IsId(CHAPTER_UID) && IsId(CHAPTER_TIME_START) && IsId(CHAPTER_TIME_END) && IsId(CHAPTER_FLAG_HIDDEN)
    ensures IsId(CHAPTER_FLAG_ENABLED) && IsId(CHAPTER_DISPLAY) && IsId(CHAP_STRING) && IsId(CHAP_LANG_IETF)
    ensures IsId(CHAPTER_ATOM) && IsId(EDITION_ENTRY) && IsId(EDITION_UID) && IsId(EDITION_FLAG_HIDDEN)
    ensures IsId(EDITION_FLAG_DEFAULT) && IsId(CRC_ID)
  {}

  // ---- one chapter

  function EndKids(a: ChapterEntry): seq<Element>
  {
    if a.end_ns > a.start_ns then [Number(0x92, a.end_ns)] else []
  }

  function DisplayKids(a: ChapterEntry): seq<Element>
  {
    if a.title != [] then [Element(0x80, DisplayContent(a.title, a.lang))] else []
  }

  lemma DisplayBack(a: ChapterEntry)
    requires |AtomContent(a)| < SIZE_LIMIT
    ensures Children(AtomDisplay(a)) == DisplayKids(a)
  {
    hide Elem, Children, DisplayContent, AtomContent;
    ChapterIds();
    NothingMore(AtomDisplay(a));
    DisplayFits(a);
    if a.title != [] { ChildrenBack(CHAPTER_DISPLAY, DisplayContent(a.title, a.lang), []); }
  }

  function AtomKids(a: ChapterEntry): seq<Element>
  {
    [Number(0x73C4, a.uid)] + ([Number(0x91, a.start_ns)] + (EndKids(a) + ([Number(0x98, 0)]
                                                                          + ([Number(0x4598, 1)] + DisplayKids(a)))))
  }

  lemma AtomKidsBack(a: ChapterEntry)
    requires |AtomContent(a)| < SIZE_LIMIT
    ensures Children(AtomContent(a)) == AtomKids(a)
  {
    hide Children, UintElem, AtomDisplay, DisplayKids, Number;
    var display := AtomDisplay(a);
    var enabled := UintElem(CHAPTER_FLAG_ENABLED, 1) + display;
    var hidden := UintElem(CHAPTER_FLAG_HIDDEN, 0) + enabled;
    var end := AtomEnd(a) + hidden;
    var start := UintElem(CHAPTER_TIME_START, a.start_ns) + end;
    assert AtomContent(a) == UintElem(CHAPTER_UID, a.uid) + start;
    ChapterIds();
    DisplayBack(a);
    NumberBack(CHAPTER_FLAG_ENABLED, 1, display);
    NumberBack(CHAPTER_FLAG_HIDDEN, 0, enabled);
    EndBack(a, hidden);
    NumberBack(CHAPTER_TIME_START, a.start_ns, end);
    NumberBack(CHAPTER_UID, a.uid, start);
  }

  lemma EndBack(a: ChapterEntry, rest: seq<byte>)
    ensures Children(AtomEnd(a) + rest) == EndKids(a) + Children(rest)
  {
    hide Children, UintElem, Number;
    if a.end_ns > a.start_ns {
      NumberBack(CHAPTER_TIME_END, a.end_ns, rest);
    } else {
      assert AtomEnd(a) + rest == rest;
    }
  }

  /** Which of a chapter's children an ID finds. */
  lemma AtomFound(a: ChapterEntry, id: nat)
    ensures FirstOf(AtomKids(a), id)
         == if id == 0x73C4 then Some(Number(0x73C4, a.uid).content)
            else if id == 0x91 then Some(Number(0x91, a.start_ns).content)
            else if id == 0x92 && a.end_ns > a.start_ns then Some(Number(0x92, a.end_ns).content)
            else if id == 0x98 then Some(Number(0x98, 0).content)
            else if id == 0x4598 then Some(Number(0x4598, 1).content)
            else if id == 0x80 && a.title != [] then Some(DisplayContent(a.title, a.lang))
            else None
  {
    hide FirstOf, BeBytes, UintSize, DisplayContent;
    var u, s, h, n := Number(0x73C4, a.uid), Number(0x91, a.start_ns), Number(0x98, 0), Number(0x4598, 1);
    var tail := [h] + ([n] + DisplayKids(a));
    FoundConcat([u], [s] + (EndKids(a) + tail), id);
    FoundConcat([s], EndKids(a) + tail, id);
    FoundConcat(EndKids(a), tail, id);
    FoundConcat([h], [n] + DisplayKids(a), id);
    FoundConcat([n], DisplayKids(a), id);
    FoundOne(u, id); FoundOne(s, id); FoundOne(h, id); FoundOne(n, id);
    FoundOne(Number(0x92, a.end_ns), id);
    FoundOne(Element(0x80, DisplayContent(a.title, a.lang)), id);
    FoundNone(id);
  }

  lemma FoundNone(id: nat)
    ensures FirstOf([], id) == None
  {}

  lemma DisplayFields(title: seq<byte>, lang: seq<byte>)
    requires |DisplayContent(title, lang)| < SIZE_LIMIT
    ensures FirstOf(Children(DisplayContent(title, lang)), 0x85) == Some(title)
    ensures FirstOf(Children(DisplayContent(title, lang)), 0x437D) == Some(lang)
  {
    hide Elem, Children, FirstOf;
    ChapterIds();
    var second := Elem(CHAP_LANG_IETF, lang);
    ElemLonger(CHAP_STRING, title);
    ElemLonger(CHAP_LANG_IETF, lang);
    ChildrenBack(CHAP_STRING, title, second);
    NothingMore(second);
    ChildrenBack(CHAP_LANG_IETF, lang, []);
    assert Children(DisplayContent(title, lang)) == [Element(0x85, title), Element(0x437D, lang)];
    FoundTwo(Element(0x85, title), Element(0x437D, lang), 0x85);
    FoundTwo(Element(0x85, title), Element(0x437D, lang), 0x437D);
  }

  lemma AtomBack(a: ChapterEntry)
    requires |AtomContent(a)| < SIZE_LIMIT
    ensures ReadAtom(Children(AtomContent(a))) == ToldAtom(a)
  {
    hide Children, AtomContent, FirstOf, Number, DisplayContent, Unsigned, AtomKids;
    AtomKidsBack(a);
    AtomFound(a, 0x73C4); AtomFound(a, 0x91); AtomFound(a, 0x92);
    AtomFound(a, 0x98); AtomFound(a, 0x4598); AtomFound(a, 0x80);
    NumberBack(0x73C4, a.uid, []); NumberBack(0x91, a.start_ns, []); NumberBack(0x92, a.end_ns, []);
    NumberBack(0x98, 0, []); NumberBack(0x4598, 1, []);
    NoSigned();
    DisplayFits(a);
    if a.title != [] { DisplayFields(a.title, a.lang); }
  }

  // ---- all chapters

  lemma {:induction false} AtomsBack(atoms: seq<ChapterEntry>)
    requires |AtomsBytes(atoms)| < SIZE_LIMIT
    ensures ReadAtoms(Children(AtomsBytes(atoms))) == ToldAtoms(atoms)
    ensures forall id: nat :: id != 0xB6 ==> FirstOf(Children(AtomsBytes(atoms)), id) == None
  {
    hide Elem, AtomContent, ReadAtom, ToldAtom, ReadElement;
    if |atoms| > 0 {
      var content, rest := AtomContent(atoms[0]), AtomsBytes(atoms[1..]);
      ChapterIds();
      ElemLonger(CHAPTER_ATOM, content);
      ChildrenBack(CHAPTER_ATOM, content, rest);
      AtomBack(atoms[0]);
      AtomsBack(atoms[1..]);
    } else {
      NoElement();
    }
  }

  lemma AtomsSkip(e: Element, kids: seq<Element>)
    requires e.id != 0xB6
    ensures ReadAtoms([e] + kids) == ReadAtoms(kids)
  {
    assert ([e] + kids)[1..] == kids;
  }

  lemma EditionBack(editionUid: u64, atoms: seq<ChapterEntry>)
    requires |EditionContent(editionUid, atoms)| < SIZE_LIMIT
    ensures ReadEdition(Children(EditionContent(editionUid, atoms)))
         == Edition(Some(editionUid), Some(0), Some(0), ToldAtoms(atoms))
  {
    hide Children, UintElem, AtomsBytes, FirstOf, BeBytes, UintSize, Unsigned, ReadAtoms, ToldAtoms;
    var rest := AtomsBytes(atoms);
    var byDefault := UintElem(EDITION_FLAG_DEFAULT, 0) + rest;
    var hidden := UintElem(EDITION_FLAG_HIDDEN, 0) + byDefault;
    assert EditionContent(editionUid, atoms) == UintElem(EDITION_UID, editionUid) + hidden;
    ChapterIds();
    AtomsBack(atoms);
    NumberBack(EDITION_FLAG_DEFAULT, 0, rest);
    NumberBack(EDITION_FLAG_HIDDEN, 0, byDefault);
    NumberBack(EDITION_UID, editionUid, hidden);
    EditionFound(Number(EDITION_UID, editionUid), Number(EDITION_FLAG_HIDDEN, 0), Number(EDITION_FLAG_DEFAULT, 0),
                 Children(rest));
  }

  lemma EditionFound(u: Element, h: Element, d: Element, rest: seq<Element>)
    requires u.id == 0x45BC && h.id == 0x45BD && d.id == 0x45DB
    ensures var kids := [u] + ([h] + ([d] + rest));
            && FirstOf(kids, 0x45BC) == Some(u.content) && FirstOf(kids, 0x45BD) == Some(h.content)
            && FirstOf(kids, 0x45DB) == Some(d.content) && ReadAtoms(kids) == ReadAtoms(rest)
  {
    hide ReadAtoms;
    AtomsSkip(d, rest);
    AtomsSkip(h, [d] + rest);
    AtomsSkip(u, [h] + ([d] + rest));
    var kids := [u] + ([h] + ([d] + rest));
    assert kids[1..] == [h] + ([d] + rest) && kids[1..][1..] == [d] + rest;
    assert FirstOf([d] + rest, 0x45DB) == Some(d.content);
    assert FirstOf([h] + ([d] + rest), 0x45DB) == Some(d.content);
  }

  /** The whole element: its checksum is right, and its edition and chapters are those given. */
  lemma ChaptersBack(editionUid: u64, atoms: seq<ChapterEntry>)
    requires |ChaptersContent(editionUid, atoms)| < SIZE_LIMIT
    ensures Checked(ChaptersContent(editionUid, atoms))
    ensures ReadChapters(ChaptersContent(editionUid, atoms))
         == Some(Edition(Some(editionUid), Some(0), Some(0), ToldAtoms(atoms)))
  {
    hide Elem, EditionContent, CrcElem, Crc32, ReadElement, LeBytes, Checked, ReadEdition, ToldAtoms, FirstOf;
    var edition := EditionContent(editionUid, atoms);
    var c := Crc32(Elem(EDITION_ENTRY, edition));
    SealedChecked(Elem(EDITION_ENTRY, edition));
    ChapterIds();
    CrcIsElem(c);
    ElemLonger(EDITION_ENTRY, edition);
    ChildrenBack(CRC_ID, LeBytes(c), Elem(EDITION_ENTRY, edition));
    NothingMore(Elem(EDITION_ENTRY, edition));
    ChildrenBack(EDITION_ENTRY, edition, []);
    assert Children(ChaptersContent(editionUid, atoms)) == [Element(0xBF, LeBytes(c)), Element(0x45B9, edition)];
    FoundTwo(Element(0xBF, LeBytes(c)), Element(0x45B9, edition), 0x45B9);
    EditionBack(editionUid, atoms);
  }

  /** What a player finds in a file: the chapters of its segment, not behind a cluster. */
  function FileEdition(buf: seq<byte>): Option<Edition>
  {
    match SegmentBody(buf, 0x1043_A770) case None => None case Some(body) => ReadChapters(body)
  }

  /** From any file with chapters before its clusters, every field of every chapter comes back. */
  lemma FileBack(doc: seq<byte>, before: seq<Element>, editionUid: u64, atoms: seq<ChapterEntry>, after: seq<byte>)
    requires forall e :: e in before ==> Writable(e.id, e.content) && e.id != CLUSTER && e.id != CHAPTERS_ID
    requires |doc| < SIZE_LIMIT
    requires |Concat(before) + Elem(CHAPTERS_ID, ChaptersContent(editionUid, atoms)) + after| < SIZE_LIMIT
    ensures FileEdition(Elem(EBML_MAGIC, doc)
                        + Elem(SEGMENT, Concat(before) + Elem(CHAPTERS_ID, ChaptersContent(editionUid, atoms)) + after))
         == Some(Edition(Some(editionUid), Some(0), Some(0), ToldAtoms(atoms)))
  {
    hide Elem, SegmentBody, ChaptersContent, ReadChapters, Concat, ToldAtoms;
    var content := ChaptersContent(editionUid, atoms);
    ElemLonger(CHAPTERS_ID, content);
    SegmentBodyFound(doc, before, CHAPTERS_ID, content, after);
    ChaptersBack(editionUid, atoms);
  }
}
