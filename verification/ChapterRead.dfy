/** The reader of chapter languages, and its agreement with the writer. */
module ChapterRead {
  import opened Bytes
  import opened Ebml
  import opened EbmlRead
  import opened Crc
  import opened Chapters

  const EBML_MAGIC: nat := 0x1A45_DFA3
  const SEGMENT: nat := 0x1853_8067
  const CLUSTER: nat := 0x1F43_B675
  const CRC_ID: nat := 0xBF

  /** `from_utf8`: well-formed UTF-8 as RFC 3629 section 4 defines it. */
  predicate Utf8(s: seq<byte>)
    decreases |s|
  {
    if |s| == 0 then true
    else if s[0] < 0x80 then Utf8(s[1..])
    else if 0xC2 <= s[0] <= 0xDF then |s| >= 2 && Tail(s[1]) && Utf8(s[2..])
    else if 0xE0 <= s[0] <= 0xEF then
      && |s| >= 3 && Tail(s[1]) && Tail(s[2])
      && (s[0] == 0xE0 ==> s[1] >= 0xA0) && (s[0] == 0xED ==> s[1] < 0xA0) && Utf8(s[3..])
    else
      && 0xF0 <= s[0] <= 0xF4 && |s| >= 4 && Tail(s[1]) && Tail(s[2]) && Tail(s[3])
      && (s[0] == 0xF0 ==> s[1] >= 0x90) && (s[0] == 0xF4 ==> s[1] < 0x90) && Utf8(s[4..])
  }

  predicate Tail(b: byte) { 0x80 <= b < 0xC0 }

  /** A language tag the reader keeps: text with a subtag separator. */
  predicate Subtagged(s: seq<byte>) { Utf8(s) && 0x2D in s }

  // ---- what each loop of the reader looks for

  function FirstOf(kids: seq<Element>, id: nat): Option<seq<byte>>
  {
    if |kids| == 0 then None
    else if kids[0].id == id then Some(kids[0].content)
    else FirstOf(kids[1..], id)
  }

  /** The first `target` child not behind a Cluster. */
  function BeforeClusters(kids: seq<Element>, target: nat): Option<seq<byte>>
  {
    if |kids| == 0 || kids[0].id == CLUSTER then None
    else if kids[0].id == target then Some(kids[0].content)
    else BeforeClusters(kids[1..], target)
  }

  function Tag(kids: seq<Element>, target: nat): Option<seq<byte>>
  {
    match FirstOf(kids, target)
    case Some(s) => if Subtagged(s) then Some(s) else None
    case None => None
  }

  /** The tag of the first display that has one. */
  function AtomTag(kids: seq<Element>): Option<seq<byte>>
  {
    if |kids| == 0 then None
    else if kids[0].id == CHAPTER_DISPLAY && Tag(Children(kids[0].content), CHAP_LANG_IETF).Some? then
      Tag(Children(kids[0].content), CHAP_LANG_IETF)
    else AtomTag(kids[1..])
  }

  function CountAtoms(kids: seq<Element>): nat
  {
    if |kids| == 0 then 0 else (if kids[0].id == CHAPTER_ATOM then 1 else 0) + CountAtoms(kids[1..])
  }

  function AtomTags(kids: seq<Element>, pos: nat): seq<(nat, seq<byte>)>
    decreases |kids|
  {
    if |kids| == 0 then []
    else if kids[0].id == CHAPTER_ATOM then
      (match AtomTag(Children(kids[0].content)) case Some(t) => [(pos, t)] case None => [])
      + AtomTags(kids[1..], pos + 1)
    else AtomTags(kids[1..], pos)
  }

  function EditionTags(kids: seq<Element>, pos: nat): seq<(nat, seq<byte>)>
    decreases |kids|
  {
    if |kids| == 0 then []
    else if kids[0].id == EDITION_ENTRY then
      var atoms := Children(kids[0].content);
      AtomTags(atoms, pos) + EditionTags(kids[1..], pos + CountAtoms(atoms))
    else EditionTags(kids[1..], pos)
  }

  function SegmentBody(buf: seq<byte>, target: nat): Option<seq<byte>>
  {
    match ReadId(buf)
    case Some((EBML_MAGIC, _)) =>
      (match FirstOf(Children(buf), SEGMENT)
       case Some(seg) => BeforeClusters(Children(seg), target)
       case None => None)
    case _ => None
  }

  // ---- the reader

  method Subtag(body: seq<byte>, target: nat) returns (r: Option<seq<byte>>)
    ensures r == Tag(Children(body), target)
  {
    hide ReadElement, Subtagged;
    var p := body;
    while true
      invariant Tag(Children(p), target) == Tag(Children(body), target)
      decreases |p|
    {
      match ReadElement(p)
      case None => return None;
      case Some((e, next)) =>
        if e.id == target { return if Subtagged(e.content) then Some(e.content) else None; }
        p := next;
    }
  }

  method AtomLang(body: seq<byte>) returns (r: Option<seq<byte>>)
    ensures r == AtomTag(Children(body))
  {
    hide ReadElement, Tag;
    var p := body;
    while true
      invariant AtomTag(Children(p)) == AtomTag(Children(body))
      decreases |p|
    {
      match ReadElement(p)
      case None => return None;
      case Some((e, next)) =>
        if e.id == CHAPTER_DISPLAY {
          var t := Subtag(e.content, CHAP_LANG_IETF);
          if t.Some? { return t; }
        }
        p := next;
    }
  }

  method WalkAtoms(body: seq<byte>, out0: seq<(nat, seq<byte>)>, pos0: nat)
    returns (out: seq<(nat, seq<byte>)>, pos: nat)
    ensures out == out0 + AtomTags(Children(body), pos0) && pos == pos0 + CountAtoms(Children(body))
  {
    hide ReadElement, AtomTag;
    out, pos := out0, pos0;
    var p := body;
    while true
      invariant out + AtomTags(Children(p), pos) == out0 + AtomTags(Children(body), pos0)
      invariant pos + CountAtoms(Children(p)) == pos0 + CountAtoms(Children(body))
      decreases |p|
    {
      match ReadElement(p)
      case None => return;
      case Some((e, next)) =>
        if e.id == CHAPTER_ATOM {
          var t := AtomLang(e.content);
          if t.Some? { out := out + [(pos, t.value)]; }
          pos := pos + 1;
        }
        p := next;
    }
  }

  method SegmentChild(buf: seq<byte>, target: nat) returns (r: Option<seq<byte>>)
    ensures r == SegmentBody(buf, target)
  {
    hide ReadElement, ReadId;
    var magic := ReadId(buf);
    if magic.None? || magic.value.0 != EBML_MAGIC { return None; }
    var p, seg := buf, None;
    while seg.None?
      invariant seg.None? ==> FirstOf(Children(p), SEGMENT) == FirstOf(Children(buf), SEGMENT)
      invariant seg.Some? ==> seg == FirstOf(Children(buf), SEGMENT)
      decreases |p|, seg.None?
    {
      match ReadElement(p)
      case None => return None;
      case Some((e, next)) =>
        if e.id == SEGMENT { seg := Some(e.content); }
        p := next;
    }
    var q := seg.value;
    while true
      invariant BeforeClusters(Children(q), target) == BeforeClusters(Children(seg.value), target)
      decreases |q|
    {
      match ReadElement(q)
      case None => return None;
      case Some((e, next)) =>
        if e.id == CLUSTER { return None; }
        if e.id == target { return Some(e.content); }
        q := next;
    }
  }

  function LangsOf(buf: seq<byte>): seq<(nat, seq<byte>)>
  {
    match SegmentBody(buf, CHAPTERS_ID)
    case None => []
    case Some(body) => EditionTags(Children(body), 0)
  }

  method ChapterLangs(buf: seq<byte>) returns (out: seq<(nat, seq<byte>)>)
    ensures out == LangsOf(buf)
  {
    hide ReadElement, SegmentBody, AtomTags, CountAtoms;
    var body := SegmentChild(buf, CHAPTERS_ID);
    if body.None? { return []; }
    out := [];
    var pos := 0;
    var p := body.value;
    while true
      invariant out + EditionTags(Children(p), pos) == EditionTags(Children(body.value), 0)
      decreases |p|
    {
      match ReadElement(p)
      case None => return;
      case Some((e, next)) =>
        if e.id == EDITION_ENTRY { out, pos := WalkAtoms(e.content, out, pos); }
        p := next;
    }
  }

  // ---- the writer's output read back

  /** What a reader should report: the tagged language of each titled chapter, under its position. */
  function TaggedAtoms(atoms: seq<ChapterEntry>, pos: nat): seq<(nat, seq<byte>)>
  {
    if |atoms| == 0 then []
    else
      (if atoms[0].title != [] && Subtagged(atoms[0].lang) then [(pos, atoms[0].lang)] else [])
      + TaggedAtoms(atoms[1..], pos + 1)
  }

  function Concat(es: seq<Element>): seq<byte>
  {
    if |es| == 0 then [] else Elem(es[0].id, es[0].content) + Concat(es[1..])
  }

  predicate Writable(id: nat, content: seq<byte>) { IsId(id) && |content| < SIZE_LIMIT }

  lemma UintWritable(id: nat, v: u64)
    requires IsId(id)
    ensures Writable(id, BeBytes(v, UintSize(v)))
  {
    UintSizeRange(v);
  }

  lemma TagOfDisplay(title: seq<byte>, lang: seq<byte>)
    requires |title| < SIZE_LIMIT && |lang| < SIZE_LIMIT
    ensures Tag(Children(DisplayContent(title, lang)), CHAP_LANG_IETF) == if Subtagged(lang) then Some(lang) else None
  {
    hide Children, Elem, Subtagged;
    var second := Elem(CHAP_LANG_IETF, lang);
    ChildrenBack(CHAP_STRING, title, second);
    assert second + [] == second;
    ChildrenBack(CHAP_LANG_IETF, lang, []);
    var kids := Children(DisplayContent(title, lang));
    assert kids[1..] == Children(second);
    assert FirstOf(kids[1..], CHAP_LANG_IETF) == Some(lang);
  }

  lemma AtomTagSkips(id: nat, content: seq<byte>, rest: seq<byte>)
    requires Writable(id, content) && id != CHAPTER_DISPLAY
    ensures AtomTag(Children(Elem(id, content) + rest)) == AtomTag(Children(rest))
  {
    hide Children, Elem, Tag;
    ChildrenBack(id, content, rest);
  }

  lemma AtomTagOfDisplay(a: ChapterEntry)
    requires a.title != [] ==> |DisplayContent(a.title, a.lang)| < SIZE_LIMIT
    ensures AtomTag(Children(AtomDisplay(a))) == if a.title != [] && Subtagged(a.lang) then Some(a.lang) else None
  {
    hide Tag, Elem, ReadElement, Subtagged, IsId;
    if a.title != [] {
      TagOfDisplay(a.title, a.lang);
      AtomTagOfOne(DisplayContent(a.title, a.lang));
    } else {
      NoElement();
    }
  }

  lemma NoElement()
    ensures ReadElement([]) == None
  {}

  lemma AtomTagOfOne(content: seq<byte>)
    requires |content| < SIZE_LIMIT
    ensures AtomTag(Children(Elem(CHAPTER_DISPLAY, content))) == Tag(Children(content), CHAP_LANG_IETF)
  {
    hide Elem, Tag, ReadElement;
    ChildrenBack(CHAPTER_DISPLAY, content, []);
    assert Elem(CHAPTER_DISPLAY, content) + [] == Elem(CHAPTER_DISPLAY, content);
    NoElement();
    assert Children([]) == [];
  }

  lemma AtomTagSkipsUint(id: nat, v: u64, rest: seq<byte>)
    requires IsId(id) && id != CHAPTER_DISPLAY
    ensures AtomTag(Children(UintElem(id, v) + rest)) == AtomTag(Children(rest))
  {
    hide Children, Elem, AtomTag;
    UintWritable(id, v);
    AtomTagSkips(id, BeBytes(v, UintSize(v)), rest);
  }

  lemma AtomTagSkipsTimes(a: ChapterEntry, rest: seq<byte>)
    ensures AtomTag(Children(AtomTimes(a) + rest)) == AtomTag(Children(rest))
  {
    hide Children, UintElem, AtomTag;
    var uid, start := UintElem(CHAPTER_UID, a.uid), UintElem(CHAPTER_TIME_START, a.start_ns);
    AtomTagSkipsUint(CHAPTER_UID, a.uid, start + (AtomEnd(a) + rest));
    AtomTagSkipsUint(CHAPTER_TIME_START, a.start_ns, AtomEnd(a) + rest);
    assert AtomTimes(a) + rest == uid + (start + (AtomEnd(a) + rest));
    if a.end_ns > a.start_ns {
      AtomTagSkipsUint(CHAPTER_TIME_END, a.end_ns, rest);
    } else {
      assert AtomEnd(a) + rest == rest;
    }
  }

  lemma AtomTagOfAtom(a: ChapterEntry)
    requires |AtomContent(a)| < SIZE_LIMIT
    ensures AtomTag(Children(AtomContent(a))) == if a.title != [] && Subtagged(a.lang) then Some(a.lang) else None
  {
    hide Children, UintElem, AtomTag, Subtagged, AtomTimes, AtomDisplay, DisplayContent;
    var hidden, enabled := UintElem(CHAPTER_FLAG_HIDDEN, 0), UintElem(CHAPTER_FLAG_ENABLED, 1);
    var display := AtomDisplay(a);
    AtomTagSkipsTimes(a, hidden + (enabled + display));
    AtomTagSkipsUint(CHAPTER_FLAG_HIDDEN, 0, enabled + display);
    AtomTagSkipsUint(CHAPTER_FLAG_ENABLED, 1, display);
    AtomContentNested(AtomTimes(a), hidden, enabled, display);
    DisplayFits(a);
    AtomTagOfDisplay(a);
  }

  lemma AtomContentNested(t: seq<byte>, h: seq<byte>, e: seq<byte>, d: seq<byte>)
    ensures t + (h + e) + d == t + (h + (e + d))
  {}

  lemma DisplayFits(a: ChapterEntry)
    requires |AtomContent(a)| < SIZE_LIMIT
    ensures a.title != [] ==> |DisplayContent(a.title, a.lang)| < SIZE_LIMIT
  {
    hide Elem, ElemSize, AtomTimes, UintElem, DisplayContent;
    if a.title != [] { ElemLonger(CHAPTER_DISPLAY, DisplayContent(a.title, a.lang)); }
  }

  lemma {:induction false} AtomsComeBack(atoms: seq<ChapterEntry>, pos: nat)
    requires |AtomsBytes(atoms)| < SIZE_LIMIT
    ensures AtomTags(Children(AtomsBytes(atoms)), pos) == TaggedAtoms(atoms, pos)
  {
    hide Elem, AtomContent, AtomTag, Subtagged, ReadElement;
    if |atoms| > 0 {
      var content, rest := AtomContent(atoms[0]), AtomsBytes(atoms[1..]);
      ElemLonger(CHAPTER_ATOM, content);
      ChildrenBack(CHAPTER_ATOM, content, rest);
      AtomTagOfAtom(atoms[0]);
      AtomsComeBack(atoms[1..], pos + 1);
    } else {
      NoElement();
    }
  }

  lemma AtomTagsSkipsUint(id: nat, v: u64, rest: seq<byte>)
    requires IsId(id) && id != CHAPTER_ATOM
    ensures AtomTags(Children(UintElem(id, v) + rest), 0) == AtomTags(Children(rest), 0)
  {
    hide Children, Elem, AtomTag;
    UintWritable(id, v);
    ChildrenBack(id, BeBytes(v, UintSize(v)), rest);
  }

  lemma EditionComesBack(editionUid: u64, atoms: seq<ChapterEntry>)
    requires |EditionContent(editionUid, atoms)| < SIZE_LIMIT
    ensures AtomTags(Children(EditionContent(editionUid, atoms)), 0) == TaggedAtoms(atoms, 0)
  {
    hide Children, UintElem, AtomTags, TaggedAtoms, AtomsBytes;
    var e1, e2, e3 := UintElem(EDITION_UID, editionUid), UintElem(EDITION_FLAG_HIDDEN, 0),
        UintElem(EDITION_FLAG_DEFAULT, 0);
    var rest := AtomsBytes(atoms);
    AtomTagsSkipsUint(EDITION_UID, editionUid, e2 + (e3 + rest));
    AtomTagsSkipsUint(EDITION_FLAG_HIDDEN, 0, e3 + rest);
    AtomTagsSkipsUint(EDITION_FLAG_DEFAULT, 0, rest);
    assert EditionContent(editionUid, atoms) == e1 + (e2 + (e3 + rest));
    AtomsComeBack(atoms, 0);
  }

  /** The checksum reads as an element of its own. */
  lemma CrcIsElem(c: Reg)
    ensures CrcElem(c) == Elem(CRC_ID, LeBytes(c))
  {
    hide LeBytes;
    SmallVint(4);
    IdBits(CRC_ID);
    assert BeBytes(CRC_ID, 1) == BeBytes(0, 0) + [0xBF];
  }

  lemma ChaptersContentComesBack(editionUid: u64, atoms: seq<ChapterEntry>)
    requires |ChaptersContent(editionUid, atoms)| < SIZE_LIMIT
    ensures EditionTags(Children(ChaptersContent(editionUid, atoms)), 0) == TaggedAtoms(atoms, 0)
  {
    hide Elem, EditionContent, TaggedAtoms, AtomTags, CrcElem, Crc32, ReadElement, LeBytes;
    var edition := EditionContent(editionUid, atoms);
    var c := Crc32(Elem(EDITION_ENTRY, edition));
    CrcIsElem(c);
    ElemLonger(EDITION_ENTRY, edition);
    ChildrenBack(CRC_ID, LeBytes(c), Elem(EDITION_ENTRY, edition));
    ChildrenBack(EDITION_ENTRY, edition, []);
    assert Elem(EDITION_ENTRY, edition) + [] == Elem(EDITION_ENTRY, edition);
    NoElement();
    EditionComesBack(editionUid, atoms);
    var kids := [Element(CRC_ID, LeBytes(c)), Element(EDITION_ENTRY, edition)];
    assert Children(ChaptersContent(editionUid, atoms)) == kids;
    OneEdition(kids);
  }

  lemma OneEdition(kids: seq<Element>)
    requires |kids| == 2 && kids[0].id != EDITION_ENTRY && kids[1].id == EDITION_ENTRY
    ensures EditionTags(kids, 0) == AtomTags(Children(kids[1].content), 0)
  {
    hide AtomTags, Children, CountAtoms;
    assert kids[1..][0] == kids[1];
    assert EditionTags(kids[1..][1..], CountAtoms(Children(kids[1].content))) == [];
  }

  lemma {:induction false} BeforeClustersSkips(es: seq<Element>, rest: seq<byte>, target: nat)
    requires forall e :: e in es ==> Writable(e.id, e.content) && e.id != CLUSTER && e.id != target
    ensures BeforeClusters(Children(Concat(es) + rest), target) == BeforeClusters(Children(rest), target)
  {
    hide Elem, Children;
    if |es| > 0 {
      var e := es[0];
      assert Concat(es) + rest == Elem(e.id, e.content) + (Concat(es[1..]) + rest);
      ChildrenBack(e.id, e.content, Concat(es[1..]) + rest);
      BeforeClustersSkips(es[1..], rest, target);
    } else {
      assert Concat(es) + rest == rest;
    }
  }

  lemma BeforeClustersHit(target: nat, content: seq<byte>, rest: seq<byte>)
    requires Writable(target, content) && target != CLUSTER
    ensures BeforeClusters(Children(Elem(target, content) + rest), target) == Some(content)
  {
    hide Elem, Children;
    ChildrenBack(target, content, rest);
  }

  /** Any document whose segment holds `content` under `target`, before its clusters, gives it back. */
  lemma SegmentBodyFound(doc: seq<byte>, before: seq<Element>, target: nat, content: seq<byte>, after: seq<byte>)
    requires forall e :: e in before ==> Writable(e.id, e.content) && e.id != CLUSTER && e.id != target
    requires IsId(target) && target != CLUSTER && |doc| < SIZE_LIMIT
    requires |Concat(before) + Elem(target, content) + after| < SIZE_LIMIT
    ensures SegmentBody(Elem(EBML_MAGIC, doc) + Elem(SEGMENT, Concat(before) + Elem(target, content) + after), target)
         == Some(content)
  {
    hide Elem, ReadElement, ReadId, BeforeClusters, Concat;
    var body := Concat(before) + Elem(target, content) + after;
    var buf := Elem(EBML_MAGIC, doc) + Elem(SEGMENT, body);
    MagicRead(doc, Elem(SEGMENT, body));
    ChildrenBack(EBML_MAGIC, doc, Elem(SEGMENT, body));
    ChildrenBack(SEGMENT, body, []);
    assert Elem(SEGMENT, body) + [] == Elem(SEGMENT, body);
    assert FirstOf(Children(buf), SEGMENT) == Some(body);
    ElemLonger(target, content);
    assert body == Concat(before) + (Elem(target, content) + after);
    BeforeClustersSkips(before, Elem(target, content) + after, target);
    BeforeClustersHit(target, content, after);
  }

  lemma MagicRead(doc: seq<byte>, rest: seq<byte>)
    ensures ReadId(Elem(EBML_MAGIC, doc) + rest) == Some((EBML_MAGIC, 4))
  {
    hide ReadId, Id, Vint;
    var tail := Vint(|doc|) + (doc + rest);
    assert Elem(EBML_MAGIC, doc) + rest == Id(EBML_MAGIC) + tail;
    ReadIdBack(EBML_MAGIC, tail);
    IdBits(EBML_MAGIC);
  }

  /** The reader recovers from the writer's file exactly the titled chapters with a subtagged language. */
  lemma ChaptersComeBack(doc: seq<byte>, before: seq<Element>, editionUid: u64, atoms: seq<ChapterEntry>,
                         after: seq<byte>)
    requires forall e :: e in before ==> Writable(e.id, e.content) && e.id != CLUSTER && e.id != CHAPTERS_ID
    requires |doc| < SIZE_LIMIT
    requires |Concat(before) + Elem(CHAPTERS_ID, ChaptersContent(editionUid, atoms)) + after| < SIZE_LIMIT
    ensures LangsOf(Elem(EBML_MAGIC, doc)
                    + Elem(SEGMENT, Concat(before) + Elem(CHAPTERS_ID, ChaptersContent(editionUid, atoms)) + after))
         == TaggedAtoms(atoms, 0)
  {
    hide Elem, SegmentBody, EditionTags, ChaptersContent, TaggedAtoms, Concat;
    var content := ChaptersContent(editionUid, atoms);
    ElemLonger(CHAPTERS_ID, content);
    SegmentBodyFound(doc, before, CHAPTERS_ID, content, after);
    ChaptersContentComesBack(editionUid, atoms);
  }
}
