/** Cutting the frames of some ranges into scenes. */
module Scenes {
  import opened Bytes
  import Ranks

  /** Frames [sFrame, eFrame), with the zone parameters given for them. */
  datatype Scene = Scene(sFrame: nat, eFrame: nat, params: Option<string>)

  /** Both ends included. */
  type FrameRange = (nat, nat)

  predicate InRange(r: FrameRange, x: nat) { r.0 <= x <= r.1 }

  ghost predicate Covered(ranges: seq<FrameRange>, x: nat) { exists r :: r in ranges && InRange(r, x) }

  predicate Within(s: Scene, x: nat) { s.sFrame <= x < s.eFrame }

  // ---- sorted cuts

  ghost predicate Ascends(s: seq<nat>) { forall i, j :: 0 <= i < j < |s| ==> s[i] < s[j] }

  ghost predicate SameElements(a: seq<nat>, b: seq<nat>) { forall x :: x in a <==> x in b }

  ghost predicate Climbs(s: seq<nat>) { forall i, j :: 0 <= i <= j < |s| ==> s[i] <= s[j] }

  method Sorted(s: seq<nat>) returns (r: seq<nat>)
    ensures Climbs(r) && SameElements(r, s)
  {
    var order := Ranks.SortByKey(s);
    r := seq(|s|, i requires 0 <= i < |s| && i < |order| && order[i] < |s| => s[order[i]]);
    forall x ensures x in r <==> x in s {
      if x in s {
        var i :| 0 <= i < |s| && s[i] == x;
        assert i in order;
        var j :| 0 <= j < |order| && order[j] == i;
        assert r[j] == x;
      }
    }
  }

  /** Drops each element equal to the one before it. */
  method Dedup(s: seq<nat>) returns (r: seq<nat>)
    requires Climbs(s)
    ensures Ascends(r) && SameElements(r, s)
  {
    r := [];
    for i := 0 to |s|
      invariant Ascends(r) && SameElements(r, s[..i])
      invariant if i == 0 then r == [] else |r| > 0 && r[|r| - 1] == s[i - 1]
    {
      assert s[..i + 1] == s[..i] + [s[i]];
      assert i > 0 ==> s[i - 1] <= s[i];
      if |r| == 0 || r[|r| - 1] != s[i] {
        AscendsOn(r, s[i]);
        r := r + [s[i]];
      }
    }
    assert s[..|s|] == s;
  }

  lemma AscendsOn(r: seq<nat>, x: nat)
    requires Ascends(r) && (|r| > 0 ==> r[|r| - 1] < x)
    ensures Ascends(r + [x])
  {
    assert forall i :: 0 <= i < |r| - 1 ==> r[i] < r[|r| - 1];
  }

  /** Scene starts, and where each range starts and ends. */
  method Cuts(scenes: seq<Scene>, ranges: seq<FrameRange>) returns (cuts: seq<nat>)
    ensures Ascends(cuts)
    ensures forall s :: s in scenes ==> s.sFrame in cuts
    ensures forall r :: r in ranges ==> r.0 in cuts && r.1 + 1 in cuts
  {
    var all: seq<nat> := seq(|scenes|, i requires 0 <= i < |scenes| => scenes[i].sFrame);
    forall s | s in scenes ensures s.sFrame in all {
      var i :| 0 <= i < |scenes| && scenes[i] == s;
      assert all[i] == s.sFrame;
    }
    for k := 0 to |ranges|
      invariant forall s :: s in scenes ==> s.sFrame in all
      invariant forall i :: 0 <= i < k ==> ranges[i].0 in all && ranges[i].1 + 1 in all
    {
      all := all + [ranges[k].0, ranges[k].1 + 1];
    }
    var up := Sorted(all);
    cuts := Dedup(up);
  }

  // ---- lookups

  /** The first range with the frame. */
  function FindRange(ranges: seq<FrameRange>, x: nat): (r: Option<FrameRange>)
    ensures r.Some? ==> r.value in ranges && InRange(r.value, x)
    ensures r.Some? <==> Covered(ranges, x)
  {
    if |ranges| == 0 then None else if InRange(ranges[0], x) then Some(ranges[0]) else FindRange(ranges[1..], x)
  }

  /** The parameters of the last scene that starts no later. */
  function ParamsAt(scenes: seq<Scene>, x: nat): Option<string>
  {
    if |scenes| == 0 then None
    else if scenes[|scenes| - 1].sFrame <= x then scenes[|scenes| - 1].params
    else ParamsAt(scenes[..|scenes| - 1], x)
  }

  // ---- between two cuts

  /** No cut lies inside [a, b). */
  ghost predicate NoCutInside(cuts: seq<nat>, a: nat, b: nat) { forall c :: c in cuts ==> !(a < c < b) }

  lemma Neighbours(cuts: seq<nat>, i: nat)
    requires Ascends(cuts) && i + 1 < |cuts|
    ensures cuts[i] < cuts[i + 1] && NoCutInside(cuts, cuts[i], cuts[i + 1])
  {
    forall c | c in cuts ensures !(cuts[i] < c < cuts[i + 1]) {
      var j :| 0 <= j < |cuts| && cuts[j] == c;
      if j <= i { assert j < i ==> cuts[j] < cuts[i]; } else { assert i + 1 < j ==> cuts[i + 1] < cuts[j]; }
    }
  }

  /** A range that has the cut has everything up to the next one, and only the last cut has no next. */
  lemma RangeReaches(cuts: seq<nat>, ranges: seq<FrameRange>, i: nat, r: FrameRange)
    requires Ascends(cuts) && i < |cuts| && r in ranges && InRange(r, cuts[i]) && r.1 + 1 in cuts
    ensures i + 1 < |cuts| && cuts[i + 1] <= r.1 + 1
  {
    var j :| 0 <= j < |cuts| && cuts[j] == r.1 + 1;
    assert i + 1 < j ==> cuts[i + 1] < cuts[j];
  }

  /** A frame of a range lies between two neighbouring cuts, and its cut is in the same range. */
  lemma FrameCut(cuts: seq<nat>, r: FrameRange, x: nat) returns (i: nat)
    requires Ascends(cuts) && r.0 in cuts && r.1 + 1 in cuts && InRange(r, x)
    ensures i + 1 < |cuts| && cuts[i] <= x < cuts[i + 1] && InRange(r, cuts[i])
  {
    var a :| 0 <= a < |cuts| && cuts[a] == r.0;
    var b :| 0 <= b < |cuts| && cuts[b] == r.1 + 1;
    i := a;
    while cuts[i + 1] <= x
      invariant a <= i < b < |cuts| && cuts[i] <= x && cuts[a] <= cuts[i]
      decreases b - i
    {
      assert cuts[i] < cuts[i + 1] && i + 1 != b;
      i := i + 1;
    }
  }

  // ---- the partition

  /** Scenes in order, apart, and none empty. */
  ghost predicate Apart(out: seq<Scene>)
  {
    (forall i :: 0 <= i < |out| ==> out[i].sFrame < out[i].eFrame) && forall i, j :: 0 <= i < j < |out| ==>
        out[i].eFrame <= out[j].sFrame
  }

  /** What each scene is. */
  ghost predicate Fine(s: Scene, scenes: seq<Scene>, ranges: seq<FrameRange>)
  {
    && (forall x :: Within(s, x) ==> Covered(ranges, x))
    && (forall t :: t in scenes ==> !(s.sFrame < t.sFrame < s.eFrame))
    && s.params == ParamsAt(scenes, s.sFrame)
  }

  /** What is out covers every piece between neighbouring cuts below `i` whose first frame is covered. */
  ghost predicate Cut(out: seq<Scene>, cuts: seq<nat>, ranges: seq<FrameRange>, i: nat)
  {
    forall k :: 0 <= k < i && k + 1 < |cuts| && Covered(ranges, cuts[k]) ==> Piece(out, cuts[k], cuts[k + 1])
  }

  /** All scenes out are what they should be, and end by `limit`. */
  ghost predicate Out(out: seq<Scene>, scenes: seq<Scene>, ranges: seq<FrameRange>, limit: nat)
  {
    Apart(out) && (forall k :: 0 <= k < |out| ==> Fine(out[k], scenes, ranges) && out[k].eFrame <= limit)
  }

  lemma OutOn(out: seq<Scene>, scenes: seq<Scene>, ranges: seq<FrameRange>, s: nat, e: nat, params: Option<string>)
    requires Out(out, scenes, ranges, s) && s < e && Fine(Scene(s, e, params), scenes, ranges)
    ensures Out(out + [Scene(s, e, params)], scenes, ranges, e)
  {
    hide Fine;
  }

  lemma OutLater(out: seq<Scene>, scenes: seq<Scene>, ranges: seq<FrameRange>, s: nat, e: nat)
    requires Out(out, scenes, ranges, s) && s <= e
    ensures Out(out, scenes, ranges, e)
  {
    hide Fine;
  }

  /** One piece more, or one whose first frame no range has. */
  lemma CutOn(before: seq<Scene>, out: seq<Scene>, cuts: seq<nat>, ranges: seq<FrameRange>, i: nat)
    requires Cut(before, cuts, ranges, i) && before <= out && i < |cuts|
    requires i + 1 < |cuts| && Covered(ranges, cuts[i]) ==> Piece(out, cuts[i], cuts[i + 1])
    ensures Cut(out, cuts, ranges, i + 1)
  {
    hide Covered, Piece;
    PiecesStay(before, out);
  }

  lemma LastPiece(out: seq<Scene>, s: Scene)
    ensures Piece(out + [s], s.sFrame, s.eFrame)
  {
    assert (out + [s])[|out|] == s;
  }

  /**
   * The scenes are in order and disjoint, hold exactly the frames of the ranges, cross no scene start,
   * and carry the parameters of the scene they start in.
   */
  method TransScenes(scenes: seq<Scene>, ranges: seq<FrameRange>) returns (out: seq<Scene>)
    ensures Apart(out)
    ensures forall i :: 0 <= i < |out| ==> Fine(out[i], scenes, ranges)
    ensures forall x :: Covered(ranges, x) ==> exists i :: 0 <= i < |out| && Within(out[i], x)
  {
    hide Fine, Covered, ParamsAt, Ascends, Piece, NoCutInside, Apart, Cut;
    var cuts := Cuts(scenes, ranges);
    out := [];
    NothingOut(scenes, ranges, cuts);
    for i := 0 to |cuts|
      invariant Out(out, scenes, ranges, if i < |cuts| then cuts[i] else Top(cuts)) && Cut(out, cuts, ranges, i)
    {
      var s := cuts[i];
      var found := FindRange(ranges, s);
      ghost var before := out;
      if i + 1 < |cuts| { Neighbours(cuts, i); }
      if found.Some? {
        RangeReaches(cuts, ranges, i, found.value);
        var e := cuts[i + 1];
        var end := if e < found.value.1 + 1 then e else found.value.1 + 1;
        var params := ParamsAt(scenes, s);
        IsFine(scenes, ranges, cuts, found.value, s, e, params);
        OutOn(out, scenes, ranges, s, e, params);
        LastPiece(out, Scene(s, e, params));
        out := out + [Scene(s, end, params)];
      } else {
        OutLater(out, scenes, ranges, s, if i + 1 < |cuts| then cuts[i + 1] else Top(cuts));
      }
      CutOn(before, out, cuts, ranges, i);
    }
    OutApart(out, scenes, ranges, Top(cuts));
    forall x | Covered(ranges, x) ensures exists i :: 0 <= i < |out| && Within(out[i], x) {
      FramePlaced(cuts, ranges, out, x);
    }
  }

  /** The last cut. */
  ghost function Top(cuts: seq<nat>): nat { if |cuts| == 0 then 0 else cuts[|cuts| - 1] }

  lemma NothingOut(scenes: seq<Scene>, ranges: seq<FrameRange>, cuts: seq<nat>)
    ensures forall limit :: Out([], scenes, ranges, limit)
    ensures Cut([], cuts, ranges, 0)
  {}

  lemma OutApart(out: seq<Scene>, scenes: seq<Scene>, ranges: seq<FrameRange>, limit: nat)
    requires Out(out, scenes, ranges, limit)
    ensures Apart(out) && forall i :: 0 <= i < |out| ==> Fine(out[i], scenes, ranges)
  {}

  /** One of the scenes is [a, b). */
  ghost predicate Piece(out: seq<Scene>, a: nat, b: nat)
  {
    exists k :: 0 <= k < |out| && out[k].sFrame == a && out[k].eFrame == b
  }

  lemma PiecesStay(before: seq<Scene>, out: seq<Scene>)
    requires before <= out
    ensures forall a, b :: Piece(before, a, b) ==> Piece(out, a, b)
  {
    forall a, b | Piece(before, a, b) ensures Piece(out, a, b) {
      var k :| 0 <= k < |before| && before[k].sFrame == a && before[k].eFrame == b;
      assert out[k] == before[k];
    }
  }

  lemma IsFine(scenes: seq<Scene>, ranges: seq<FrameRange>, cuts: seq<nat>, r: FrameRange, s: nat, e: nat,
               params: Option<string>)
    requires r in ranges && InRange(r, s) && e <= r.1 + 1 && NoCutInside(cuts, s, e) && params == ParamsAt(scenes, s)
    requires forall t :: t in scenes ==> t.sFrame in cuts
    ensures Fine(Scene(s, e, params), scenes, ranges)
  {
    hide ParamsAt;
    forall x | s <= x < e ensures Covered(ranges, x) { assert InRange(r, x); }
  }

  lemma FramePlaced(cuts: seq<nat>, ranges: seq<FrameRange>, out: seq<Scene>, x: nat)
    requires Ascends(cuts) && Covered(ranges, x) && forall r :: r in ranges ==> r.0 in cuts && r.1 + 1 in cuts
    requires Cut(out, cuts, ranges, |cuts|)
    ensures exists i :: 0 <= i < |out| && Within(out[i], x)
  {
    var r :| r in ranges && InRange(r, x);
    var i := FrameCut(cuts, r, x);
    assert Covered(ranges, cuts[i]);
    var k :| 0 <= k < |out| && out[k].sFrame == cuts[i] && out[k].eFrame == cuts[i + 1];
    assert Within(out[k], x);
  }

  /** Disjoint scenes: a frame is in at most one. */
  lemma OneScene(out: seq<Scene>, i: nat, j: nat, x: nat)
    requires Apart(out) && i < |out| && j < |out| && Within(out[i], x) && Within(out[j], x)
    ensures i == j
  {}

  // ---- whose parameters

  /** Scenes one after another, as loading sorts them and validation keeps them. */
  ghost predicate InOrder(scenes: seq<Scene>)
  {
    forall i, j :: 0 <= i < j < |scenes| ==> scenes[i].eFrame <= scenes[j].sFrame
  }

  /** The lookup finds the scene that has the frame. */
  lemma {:induction false} CoveringParams(scenes: seq<Scene>, x: nat, k: nat)
    requires InOrder(scenes) && k < |scenes| && Within(scenes[k], x)
    ensures ParamsAt(scenes, x) == scenes[k].params
    decreases scenes
  {
    var n := |scenes| - 1;
    if k < n {
      assert scenes[k].eFrame <= scenes[n].sFrame;
      CoveringParams(scenes[..n], x, k);
    }
  }

  /** Between two scene starts the lookup does not change. */
  lemma {:induction false} ParamsSame(scenes: seq<Scene>, s: Scene, x: nat)
    requires forall t :: t in scenes ==> !(s.sFrame < t.sFrame < s.eFrame)
    requires Within(s, x)
    ensures ParamsAt(scenes, x) == ParamsAt(scenes, s.sFrame)
    decreases scenes
  {
    if |scenes| > 0 {
      assert scenes[|scenes| - 1] in scenes;
      ParamsSame(scenes[..|scenes| - 1], s, x);
    }
  }

  /** With scenes in order, an output scene has the parameters of every input scene it shares a frame with. */
  lemma ParamsCover(scenes: seq<Scene>, ranges: seq<FrameRange>, out: Scene, x: nat, k: nat)
    requires InOrder(scenes) && Fine(out, scenes, ranges) && Within(out, x) && k < |scenes| && Within(scenes[k], x)
    ensures out.params == scenes[k].params
  {
    hide ParamsAt;
    ParamsSame(scenes, out, x);
    CoveringParams(scenes, x, k);
  }
}
