/** What text is: the octets the reader of language tags takes are exactly the encodings of Unicode scalar values. */
module Utf8Texts {
  import opened Bytes
  import opened ChapterRead

  /** A code point that is no surrogate: section 3 of RFC 3629. */
  predicate Scalar(c: nat) { c < 0xD800 || 0xE000 <= c < 0x11_0000 }

  /** Its octets: the table of that section, six bits to each octet behind the first. */
  function Enc(c: nat): (s: seq<byte>)
    requires Scalar(c)
    ensures 1 <= |s| <= 4
  {
    if c < 0x80 then [c]
    else if c < 0x800 then [0xC0 + c / 0x40, 0x80 + c % 0x40]
    else if c < 0x1_0000 then [0xE0 + c / 0x1000, 0x80 + (c / 0x40) % 0x40, 0x80 + c % 0x40]
    else [0xF0 + c / 0x4_0000, 0x80 + (c / 0x1000) % 0x40, 0x80 + (c / 0x40) % 0x40, 0x80 + c % 0x40]
  }

  ghost predicate Scalars(cs: seq<nat>) { forall i :: 0 <= i < |cs| ==> Scalar(cs[i]) }

  ghost function EncAll(cs: seq<nat>): seq<byte>
    requires Scalars(cs)
  {
    if |cs| == 0 then [] else Enc(cs[0]) + EncAll(cs[1..])
  }

  /** A well-formed octet sequence for one code point, by its first octet: the syntax of section 4. */
  predicate One(s: seq<byte>)
  {
    match |s|
    case 1 => s[0] < 0x80
    case 2 => 0xC2 <= s[0] <= 0xDF && Tail(s[1])
    case 3 =>
      && 0xE0 <= s[0] <= 0xEF && Tail(s[1]) && Tail(s[2])
      && (s[0] == 0xE0 ==> s[1] >= 0xA0) && (s[0] == 0xED ==> s[1] < 0xA0)
    case 4 =>
      && 0xF0 <= s[0] <= 0xF4 && Tail(s[1]) && Tail(s[2]) && Tail(s[3])
      && (s[0] == 0xF0 ==> s[1] >= 0x90) && (s[0] == 0xF4 ==> s[1] < 0x90)
    case _ => false
  }

  lemma EncIsOne(c: nat)
    requires Scalar(c)
    ensures One(Enc(c))
  {
    if c >= 0x1_0000 { Thirds(c); } else if c >= 0x800 { Halves(c); }
  }

  lemma Halves(c: nat)
    ensures c / 0x40 / 0x40 == c / 0x1000 && c == 0x1000 * (c / 0x1000) + 0x40 * ((c / 0x40) % 0x40) + c % 0x40
  {}

  lemma Thirds(c: nat)
    ensures c == 0x1000 * (c / 0x1000) + 0x40 * ((c / 0x40) % 0x40) + c % 0x40
    ensures c / 0x1000 == 0x40 * (c / 0x4_0000) + (c / 0x1000) % 0x40
  {
    Halves(c);
    assert c / 0x1000 / 0x40 == c / 0x4_0000;
  }

  /** The code point of such a sequence. */
  function Point(s: seq<byte>): nat
    requires One(s)
  {
    var a: int := s[0];
    if |s| == 1 then a
    else
      var b: int := s[1];
      if |s| == 2 then (a - 0xC0) * 0x40 + (b - 0x80)
      else
        var c: int := s[2];
        if |s| == 3 then (a - 0xE0) * 0x1000 + (b - 0x80) * 0x40 + (c - 0x80)
        else
          var d: int := s[3];
          (a - 0xF0) * 0x4_0000 + (b - 0x80) * 0x1000 + (c - 0x80) * 0x40 + (d - 0x80)
  }

  lemma OneIsEnc(s: seq<byte>)
    requires One(s)
    ensures Scalar(Point(s)) && Enc(Point(s)) == s
  {
    var x: nat := Point(s);
    if |s| >= 3 { Digits(x / 0x1000, (x / 0x40) % 0x40, x % 0x40); }
    if |s| == 2 { Two(s, x); } else if |s| == 3 { Three(s, x); } else if |s| == 4 { Four(s, x); }
  }

  lemma Digits(a: nat, b: nat, c: nat)
    requires b < 0x40 && c < 0x40
    ensures var x := a * 0x1000 + b * 0x40 + c; x / 0x1000 == a && (x / 0x40) % 0x40 == b && x % 0x40 == c
  {
    var x := a * 0x1000 + b * 0x40 + c;
    assert x / 0x40 == a * 0x40 + b;
  }

  lemma Two(s: seq<byte>, x: nat)
    requires |s| == 2 && One(s) && x == Point(s)
    ensures Scalar(x) && Enc(x) == s
  {
    var a: int, b: int := s[0], s[1];
    assert x / 0x40 == a - 0xC0 && x % 0x40 == b - 0x80;
  }

  lemma Three(s: seq<byte>, x: nat)
    requires |s| == 3 && One(s) && x == Point(s)
    ensures Scalar(x) && Enc(x) == s
  {
    var a: int, b: int, c: int := s[0], s[1], s[2];
    Digits(a - 0xE0, b - 0x80, c - 0x80);
  }

  lemma Four(s: seq<byte>, x: nat)
    requires |s| == 4 && One(s) && x == Point(s)
    ensures Scalar(x) && Enc(x) == s
  {
    var a: int, b: int, c: int, d: int := s[0], s[1], s[2], s[3];
    Digits((a - 0xF0) * 0x40 + (b - 0x80), c - 0x80, d - 0x80);
    var top := x / 0x1000;
    assert top / 0x40 == a - 0xF0 && top % 0x40 == b - 0x80;
    assert x / 0x4_0000 == top / 0x40;
  }

  // ---- whole texts

  lemma OneThenText(s: seq<byte>, rest: seq<byte>)
    requires One(s)
    ensures Utf8(s + rest) <==> Utf8(rest)
  {
    assert (s + rest)[|s|..] == rest;
  }

  /** A text begins with a sequence for one code point. */
  lemma TextBegins(s: seq<byte>) returns (n: nat)
    requires Utf8(s) && |s| > 0
    ensures 1 <= n <= |s| && One(s[..n]) && Utf8(s[n..])
  {
    n := if s[0] < 0x80 then 1 else if s[0] <= 0xDF then 2 else if s[0] <= 0xEF then 3 else 4;
  }

  lemma {:induction false} EncodedIsText(cs: seq<nat>)
    requires Scalars(cs)
    ensures Utf8(EncAll(cs))
  {
    hide Enc, One;
    if |cs| > 0 {
      EncIsOne(cs[0]);
      OneThenText(Enc(cs[0]), EncAll(cs[1..]));
      EncodedIsText(cs[1..]);
    }
  }

  lemma {:induction false} TextIsEncoded(s: seq<byte>) returns (cs: seq<nat>)
    requires Utf8(s)
    ensures Scalars(cs) && EncAll(cs) == s
    decreases |s|
  {
    hide Enc, One, Utf8, Scalar, Point;
    if |s| == 0 {
      cs := [];
    } else {
      var n := TextBegins(s);
      var rest := TextIsEncoded(s[n..]);
      OneIsEnc(s[..n]);
      cs := [Point(s[..n])] + rest;
      assert cs[1..] == rest && s == s[..n] + s[n..];
    }
  }

  /** Octets are taken as text exactly when they encode some code points. */
  lemma Utf8Iff(s: seq<byte>)
    ensures Utf8(s) <==> exists cs :: Scalars(cs) && EncAll(cs) == s
  {
    hide Utf8, EncAll, Scalar;
    if Utf8(s) { var cs := TextIsEncoded(s); }
    forall cs | Scalars(cs) && EncAll(cs) == s ensures Utf8(s) { EncodedIsText(cs); }
  }

  /** ASCII is text. */
  lemma {:induction false} Ascii(s: seq<byte>)
    requires forall i :: 0 <= i < |s| ==> s[i] < 0x80
    ensures Utf8(s)
  {
    if |s| > 0 { Ascii(s[1..]); }
  }

  /** "pt-BR" is kept as a language, "por" is not. */
  lemma Tags()
    ensures Subtagged([0x70, 0x74, 0x2D, 0x42, 0x52]) && !Subtagged([0x70, 0x6F, 0x72])
  {
    var tag: seq<byte> := [0x70, 0x74, 0x2D, 0x42, 0x52];
    Ascii(tag);
    assert tag[2] == 0x2D;
  }
}
