/** Splitting an Annex B byte stream into its NAL units. */
module AnnexB {
  import opened Bytes
  import opened Ranges
  import opened Rbsp

  // ---- start codes

  predicate StartsAt(raw: seq<byte>, i: nat)
  {
    i + 3 <= |raw| && raw[i] == 0 && raw[i + 1] == 0 && raw[i + 2] == 1
  }

  /** The least index from `from` on of 00 00 01. */
  function NextStart(raw: seq<byte>, from: nat): (r: Option<nat>)
    ensures r.Some? ==> from <= r.value && StartsAt(raw, r.value) && forall i :: from <= i < r.value ==>
            !StartsAt(raw, i)
    ensures r.None? ==> forall i :: from <= i ==> !StartsAt(raw, i)
    decreases |raw| - from
  {
    if from + 3 > |raw| then None else if StartsAt(raw, from) then Some(from) else NextStart(raw, from + 1)
  }

  method FindStartCode(raw: seq<byte>, from: nat) returns (r: Option<nat>)
    ensures r == NextStart(raw, from)
  {
    var i := from;
    while i + 3 <= |raw|
      invariant from <= i && NextStart(raw, from) == NextStart(raw, i)
    {
      if StartsAt(raw, i) { return Some(i); }
      i := i + 1;
    }
    r := None;
  }

  /** Offset of the first NAL unit; the length when there is none. */
  function FirstNal(raw: seq<byte>): (p: nat)
    ensures p <= |raw| && (p == |raw| || p >= 3)
  {
    match NextStart(raw, 0) case Some(sc) => sc + 3 case None => |raw|
  }

  // ---- framing

  /** Where the NAL unit before the start code at `sc` ends: a four-octet code's first zero is not part of it. */
  function EndBefore(raw: seq<byte>, sc: nat): nat
    requires 1 <= sc <= |raw|
  {
    if raw[sc - 1] == 0 then sc - 1 else sc
  }

  function UnitAt(pos: nat, end: nat): seq<ByteRange>
  {
    if end > pos then [ByteRange(pos, end - pos)] else []
  }

  /** The NAL units of `raw` from `pos` on. */
  function Units(raw: seq<byte>, pos: nat): seq<ByteRange>
    requires pos <= |raw| && (pos >= 1 || pos == |raw|)
    decreases |raw| - pos
  {
    match NextStart(raw, pos)
    case None => UnitAt(pos, |raw|)
    case Some(sc) => UnitAt(pos, EndBefore(raw, sc)) + Units(raw, sc + 3)
  }

  lemma UnitsStep(raw: seq<byte>, pos: nat, done: seq<ByteRange>)
    requires pos <= |raw| && (pos >= 1 || pos == |raw|)
    ensures NextStart(raw, pos).None? ==> done + Units(raw, pos) == done + UnitAt(pos, |raw|)
    ensures NextStart(raw, pos).Some? ==>
      var sc := NextStart(raw, pos).value;
      1 <= sc && sc + 3 <= |raw| && done + Units(raw, pos) == (done + UnitAt(pos, EndBefore(raw, sc)))
          + Units(raw, sc + 3)
  {
    hide UnitAt, EndBefore;
  }

  method SplitUnits(raw: seq<byte>, start: nat) returns (units: seq<ByteRange>)
    requires start <= |raw| && (start >= 1 || start == |raw|)
    ensures units == Units(raw, start)
  {
    hide Units, NextStart, EndBefore;
    units := [];
    var pos := start;
    var sc := FindStartCode(raw, pos);
    assert [] + Units(raw, start) == Units(raw, start);
    while sc.Some?
      invariant pos <= |raw| && (pos >= 1 || pos == |raw|) && sc == NextStart(raw, pos)
      invariant units + Units(raw, pos) == Units(raw, start)
      decreases |raw| - pos
    {
      UnitsStep(raw, pos, units);
      var end := EndBefore(raw, sc.value);
      units := units + UnitAt(pos, end);
      pos := sc.value + 3;
      sc := FindStartCode(raw, pos);
    }
    UnitsStep(raw, pos, units);
    units := units + UnitAt(pos, |raw|);
  }

  // ---- what a writer joins

  /** Non-empty, without a start code inside, and not ending in a zero octet. */
  ghost predicate IsUnit(nal: seq<byte>)
  {
    |nal| > 0 && nal[|nal| - 1] != 0 && forall i :: 0 <= i ==> !StartsAt(nal, i)
  }

  function StartCode(long: bool): seq<byte> { if long then [0, 0, 0, 1] else [0, 0, 1] }

  /** Units behind start codes of three or four octets. */
  function Stream(nals: seq<seq<byte>>, long: seq<bool>): seq<byte>
    requires |nals| == |long|
  {
    if |nals| == 0 then [] else StartCode(long[0]) + nals[0] + Stream(nals[1..], long[1..])
  }

  /** Where each unit of the stream lies when it starts at `at`. */
  function Extents(nals: seq<seq<byte>>, long: seq<bool>, at: nat): seq<ByteRange>
    requires |nals| == |long|
  {
    if |nals| == 0 then []
    else
      var off := at + |StartCode(long[0])|;
      [ByteRange(off, |nals[0]|)] + Extents(nals[1..], long[1..], off + |nals[0]|)
  }

  lemma NextStartIs(raw: seq<byte>, from: nat, k: nat)
    requires from <= k && StartsAt(raw, k) && forall i :: from <= i < k ==> !StartsAt(raw, i)
    ensures NextStart(raw, from) == Some(k)
  {}

  /** No start code begins inside a unit, whatever follows it. */
  lemma UnitQuiet(pre: seq<byte>, nal: seq<byte>, tail: seq<byte>, i: nat)
    requires IsUnit(nal) && |pre| <= i < |pre| + |nal|
    ensures !StartsAt(pre + nal + tail, i)
  {
    var raw, j := pre + nal + tail, i - |pre|;
    assert raw[i] == nal[j];
    assert j + 1 < |nal| ==> raw[i + 1] == nal[j + 1];
    assert j + 2 < |nal| ==> raw[i + 2] == nal[j + 2];
    assert !StartsAt(nal, j);
  }

  /** The start code behind a unit is the next one found, and the unit ends right before it. */
  lemma NextIsBehind(pre: seq<byte>, nal: seq<byte>, long: bool, rest: seq<byte>)
    requires IsUnit(nal)
    ensures var raw := pre + nal + (StartCode(long) + rest);
            var end := |pre| + |nal|;
            var sc := if long then end + 1 else end;
            NextStart(raw, |pre|) == Some(sc) && sc + 3 == end + |StartCode(long)| <= |raw| && EndBefore(raw, sc) == end
  {
    hide IsUnit, NextStart, StartsAt;
    var raw := pre + nal + (StartCode(long) + rest);
    var end := |pre| + |nal|;
    var sc := if long then end + 1 else end;
    BehindAt(pre, nal, long, rest);
    forall i | |pre| <= i < sc ensures !StartsAt(raw, i) {
      if i < end { UnitQuiet(pre, nal, StartCode(long) + rest, i); }
    }
    NextStartIs(raw, |pre|, sc);
  }

  lemma BehindAt(pre: seq<byte>, nal: seq<byte>, long: bool, rest: seq<byte>)
    requires IsUnit(nal)
    ensures var raw := pre + nal + (StartCode(long) + rest);
            var end := |pre| + |nal|;
            var sc := if long then end + 1 else end;
            && |nal| > 0 && sc + 3 <= |raw| && StartsAt(raw, sc) && (long ==> !StartsAt(raw, end))
               && EndBefore(raw, sc) == end
  {
    var raw := pre + nal + (StartCode(long) + rest);
    var end := |pre| + |nal|;
    assert raw[end - 1] == nal[|nal| - 1];
    assert raw[end..] == StartCode(long) + rest;
    assert forall k :: 0 <= k < |StartCode(long)| ==> raw[end + k] == StartCode(long)[k];
  }

  lemma NoneBehind(pre: seq<byte>, nal: seq<byte>)
    requires IsUnit(nal)
    ensures NextStart(pre + nal, |pre|) == None
  {
    var raw := pre + nal + [];
    assert raw == pre + nal;
    forall i | |pre| <= i < |raw| ensures !StartsAt(raw, i) { UnitQuiet(pre, nal, [], i); }
  }

  ghost predicate AllUnits(nals: seq<seq<byte>>)
  {
    forall k :: 0 <= k < |nals| ==> IsUnit(nals[k])
  }

  /** The first unit is split off, and the split goes on behind the next start code. */
  lemma SplitOne(pre: seq<byte>, nal: seq<byte>, long: bool, rest: seq<byte>)
    requires IsUnit(nal) && |pre| > 0
    ensures var raw := pre + nal + (StartCode(long) + rest);
            var next := pre + nal + StartCode(long);
            && raw == next + rest && Units(raw, |pre|) == [ByteRange(|pre|, |nal|)] + Units(raw, |next|)
  {
    hide IsUnit, NextStart, EndBefore, StartCode;
    NextIsBehind(pre, nal, long, rest);
    UnitNonEmpty(nal);
    assert pre + nal + (StartCode(long) + rest) == (pre + nal + StartCode(long)) + rest;
  }

  lemma SplitLast(pre: seq<byte>, nal: seq<byte>)
    requires IsUnit(nal) && |pre| > 0
    ensures Units(pre + nal, |pre|) == [ByteRange(|pre|, |nal|)]
  {
    hide IsUnit, NextStart, EndBefore;
    NoneBehind(pre, nal);
    UnitNonEmpty(nal);
  }

  /** From the first unit on, the split finds it and every later one. */
  lemma {:induction false} UnitsOfStream(pre: seq<byte>, nals: seq<seq<byte>>, long: seq<bool>, at: nat)
    requires |nals| == |long| > 0 && AllUnits(nals) && at + |StartCode(long[0])| == |pre| > 0
    ensures var raw := pre + nals[0] + Stream(nals[1..], long[1..]);
            Units(raw, |pre|) == Extents(nals, long, at)
    decreases nals
  {
    hide IsUnit, Units, StartCode;
    var nal := nals[0];
    if |nals| == 1 {
      assert pre + nal + [] == pre + nal;
      SplitLast(pre, nal);
    } else {
      var tail := nals[1] + Stream(nals[2..], long[2..]);
      NextUnits(nals, long);
      SplitOne(pre, nal, long[1], tail);
      var next := pre + nal + StartCode(long[1]);
      assert next + tail == next + nals[1] + Stream(nals[2..], long[2..]);
      assert nals[1..][1..] == nals[2..] && long[1..][1..] == long[2..];
      UnitsOfStream(next, nals[1..], long[1..], |pre + nal|);
    }
  }

  lemma UnitNonEmpty(nal: seq<byte>)
    requires IsUnit(nal)
    ensures |nal| > 0
  {}

  lemma NextUnits(nals: seq<seq<byte>>, long: seq<bool>)
    requires |nals| == |long| >= 2
    ensures Stream(nals[1..], long[1..]) == StartCode(long[1]) + (nals[1] + Stream(nals[2..], long[2..]))
  {
    assert nals[1..][1..] == nals[2..] && long[1..][1..] == long[2..];
  }

  lemma FirstIs(nals: seq<seq<byte>>, long: seq<bool>)
    requires |nals| == |long| > 0
    ensures Stream(nals, long) == StartCode(long[0]) + nals[0] + Stream(nals[1..], long[1..])
    ensures FirstNal(Stream(nals, long)) == |StartCode(long[0])|
  {
    hide NextStart;
    var raw, k := Stream(nals, long), |StartCode(long[0])| - 3;
    assert forall j :: 0 <= j < k + 3 ==> raw[j] == StartCode(long[0])[j];
    NextStartIs(raw, 0, k);
  }

  /** Splitting a stream of units recovers exactly their extents. */
  lemma SplitRoundTrip(nals: seq<seq<byte>>, long: seq<bool>)
    requires |nals| == |long| && AllUnits(nals)
    ensures var raw := Stream(nals, long);
            Units(raw, FirstNal(raw)) == Extents(nals, long, 0)
  {
    hide IsUnit, Units, NextStart;
    if |nals| > 0 {
      hide Stream, FirstNal;
      FirstIs(nals, long);
      UnitsOfStream(StartCode(long[0]), nals, long, 0);
    } else {
      NoUnits();
      NothingFirst();
    }
  }

  lemma NothingFirst()
    ensures FirstNal([]) == 0
  {}

  lemma NoUnits()
    ensures Units([], 0) == []
  {}

  // ---- escaped units

  /** A NAL unit header: one or two octets, the last not zero. */
  predicate IsHeader(h: seq<byte>) { 1 <= |h| <= 2 && h[|h| - 1] != 0 }

  /** A header and an escaped payload that ends in a set bit make a unit, whatever the payload. */
  lemma EscapedIsUnit(header: seq<byte>, payload: seq<byte>)
    requires IsHeader(header) && (|payload| > 0 ==> payload[|payload| - 1] != 0)
    ensures IsUnit(header + Escape(payload, 0)) && Strip(header + Escape(payload, 0), 0) == header + payload
  {
    var nal := header + Escape(payload, 0);
    EscapeClean(payload, 0);
    EscapeLast(payload, 0);
    forall i | 0 <= i ensures !StartsAt(nal, i) { HeaderQuiet(header, Escape(payload, 0), i); }
    StripHeader(header, payload);
  }

  lemma HeaderQuiet(header: seq<byte>, e: seq<byte>, i: nat)
    requires IsHeader(header) && Clean(e)
    ensures !StartsAt(header + e, i)
  {
    var nal := header + e;
    assert i >= |header| && i + 2 < |nal| ==>
           nal[i] == e[i - |header|] && nal[i + 1] == e[i + 1 - |header|] && nal[i + 2] == e[i + 2 - |header|];
  }

  lemma {:induction false} EscapeLast(payload: seq<byte>, z: nat)
    requires |payload| > 0 ==> payload[|payload| - 1] != 0
    ensures var e := Escape(payload, z); |e| > 0 ==> e[|e| - 1] != 0
    ensures |payload| > 0 ==> |Escape(payload, z)| > 0
    decreases payload
  {
    if |payload| > 1 {
      var b := payload[0];
      EscapeLast(payload[1..], if z >= 2 && b <= 3 then (if b == 0 then 1 else 0) else if b == 0 then z + 1 else 0);
    }
  }

  lemma StripHeader(header: seq<byte>, payload: seq<byte>)
    requires IsHeader(header)
    ensures Strip(header + Escape(payload, 0), 0) == header + payload
  {
    var e := Escape(payload, 0);
    StripEscape(payload, 0);
    var nal := header + e;
    if |header| == 1 {
      assert nal[1..] == e;
    } else {
      assert nal[1..][1..] == e && nal[1..][0] == header[1];
    }
  }
}
