/** Picture order counts: recovering the full count from its transmitted low bits. */
module Pocs {
  import opened Bytes

  /** Most significant part for `lsb`, given the previous reference picture's parts. */
  function Msb(prevMsb: int, prevLsb: int, lsb: int, log2: nat): int
  {
    var max := Pow2(log2);
    var half := max / 2;
    if lsb < prevLsb && prevLsb - lsb >= half then prevMsb + max
    else if lsb > prevLsb && lsb - prevLsb > half then prevMsb - max
    else prevMsb
  }

  class Poc {
    var prevMsb: int
    var prevLsb: int

    constructor ()
      ensures prevMsb == 0 && prevLsb == 0
    {
      prevMsb, prevLsb := 0, 0;
    }

    /** The previous reference picture's count. */
    function Prev(): int
      reads this
    {
      prevMsb + prevLsb
    }

    /** The stored parts are those of a count of `log2` low bits. */
    ghost predicate Valid(log2: nat)
      reads this
    {
      prevMsb % Pow2(log2) == 0 && 0 <= prevLsb < Pow2(log2)
    }

    method Reset(lsb: int)
      modifies this
      ensures prevMsb == 0 && prevLsb == lsb
    {
      prevMsb, prevLsb := 0, lsb;
    }

    method Full(lsb: int, log2: nat, update: bool) returns (poc: int)
      requires Valid(log2) && log2 >= 1 && 0 <= lsb < Pow2(log2)
      modifies this
      ensures Valid(log2)
      ensures poc == Closest(old(Prev()), lsb, log2)
      ensures Prev() == if update then poc else old(Prev())
      ensures !update ==> prevMsb == old(prevMsb) && prevLsb == old(prevLsb)
    {
      hide Pow2;
      var msb := Msb(prevMsb, prevLsb, lsb, log2);
      MsbAligned(prevMsb, prevLsb, lsb, log2);
      ClosestIsMsb(prevMsb, prevLsb, lsb, log2);
      if update {
        prevMsb := msb;
        prevLsb := lsb;
      }
      poc := msb + lsb;
    }
  }

  /** Congruent to `lsb`, and at a distance in (-half, half] from `prev`. */
  ghost predicate Near(prev: int, lsb: int, log2: nat, poc: int)
  {
    (poc - lsb) % Pow2(log2) == 0 && 0 - Pow2(log2) < 2 * (poc - prev) <= Pow2(log2)
  }

  /** The count of section 8.2.1 of H.264 and section 8.3.1 of H.265 and H.266. */
  ghost function Closest(prev: int, lsb: int, log2: nat): int
  {
    var max := Pow2(log2);
    var d := (lsb - prev) % max;
    prev + if 2 * d <= max then d else d - max
  }

  lemma ModShift(a: int, k: int, m: int)
    requires m > 0
    ensures (a + m * k) % m == a % m
  {
    assert a == m * (a / m) + a % m;
    assert a + m * k == m * (a / m + k) + a % m by { assert m * (a / m + k) == m * (a / m) + m * k; }
    DivModUnique(a + m * k, m, a / m + k, a % m);
  }

  lemma ModMinus(a: int, b: int, m: int)
    requires m > 0 && (a - b) % m == 0
    ensures a % m == b % m
  {
    ModShift(b, (a - b) / m, m);
    assert a == b + m * ((a - b) / m);
  }

  lemma ModZeroSum(a: int, m: int, s: int)
    requires m > 0 && a % m == 0 && -1 <= s <= 1
    ensures (a + s * m) % m == 0
  {
    assert a + s * m == a + m * s;
    ModShift(a, s, m);
  }

  /** `Closest` is the one count near the previous picture with the given low bits. */
  lemma ClosestUnique(prev: int, lsb: int, log2: nat, poc: int)
    requires 0 <= lsb < Pow2(log2)
    ensures poc == Closest(prev, lsb, log2) <==> Near(prev, lsb, log2, poc)
  {
    hide Pow2;
    var max := Pow2(log2);
    var d := (lsb - prev) % max;
    var c := Closest(prev, lsb, log2);
    var q := (lsb - prev) / max;
    assert lsb - prev == max * q + d;
    var s := if 2 * d <= max then 0 else -1;
    assert c - lsb == max * (s - q) by { Distribute(max, s, q); }
    ModShift(0, s - q, max);
    if Near(prev, lsb, log2, poc) {
      ModMinus(poc - prev, lsb - prev, max);
      Residue(poc - prev, max);
    }
  }

  lemma Distribute(m: int, s: int, q: int)
    ensures m * (s - q) == m * s - m * q
  {}

  /** In (-m, m) the residue tells the number up to one multiple. */
  lemma Residue(x: int, m: int)
    requires m > 0 && -m < x < m
    ensures x % m == if x >= 0 then x else x + m
  {
    if x >= 0 { DivModUnique(x, m, 0, x); } else { DivModUnique(x, m, -1, x + m); }
  }

  lemma MsbAligned(prevMsb: int, prevLsb: int, lsb: int, log2: nat)
    requires prevMsb % Pow2(log2) == 0
    ensures Msb(prevMsb, prevLsb, lsb, log2) % Pow2(log2) == 0
  {
    hide Pow2;
    ModZeroSum(prevMsb, Pow2(log2), 1);
    ModZeroSum(prevMsb, Pow2(log2), -1);
  }

  /** The comparisons against half the range keep within the window. */
  lemma MsbNear(prevMsb: int, prevLsb: int, lsb: int, max: int, half: int, msb: int)
    requires max == 2 * half && 0 <= prevLsb < max && 0 <= lsb < max
    requires msb == if lsb < prevLsb && prevLsb - lsb >= half then prevMsb + max
                    else if lsb > prevLsb && lsb - prevLsb > half then prevMsb - max
                    else prevMsb
    ensures -max < 2 * (msb + lsb - (prevMsb + prevLsb)) <= max
  {}

  /** The comparison form computes that count. */
  lemma ClosestIsMsb(prevMsb: int, prevLsb: int, lsb: int, log2: nat)
    requires prevMsb % Pow2(log2) == 0 && 0 <= prevLsb < Pow2(log2) && 0 <= lsb < Pow2(log2) && log2 >= 1
    ensures Msb(prevMsb, prevLsb, lsb, log2) + lsb == Closest(prevMsb + prevLsb, lsb, log2)
  {
    hide Closest;
    var max := Pow2(log2);
    assert max == 2 * Pow2(log2 - 1);
    hide Pow2;
    var msb := Msb(prevMsb, prevLsb, lsb, log2);
    MsbNear(prevMsb, prevLsb, lsb, max, max / 2, msb);
    MsbAligned(prevMsb, prevLsb, lsb, log2);
    ClosestUnique(prevMsb + prevLsb, lsb, log2, msb + lsb);
  }

  // ---- whole runs

  /** A coded picture: its true count, and whether it resets or becomes the reference for the next. */
  datatype Picture = Restart(poc: int) | Coded(poc: int, update: bool)

  /** The transmitted low bits. */
  function Lsb(poc: int, log2: nat): int { poc % Pow2(log2) }

  /** The previous reference count after a picture whose count came out as `out`. */
  function Follow(prev: int, pic: Picture, out: int): int
  {
    if pic.Restart? || pic.update then out else prev
  }

  /** The count computed for a picture from its low bits and the last reference. */
  ghost function Result(prev: int, pic: Picture, log2: nat): int
  {
    if pic.Restart? then Lsb(pic.poc, log2) else Closest(prev, Lsb(pic.poc, log2), log2)
  }

  /** The counts computed over a run. */
  ghost function Recovered(prev: int, pics: seq<Picture>, log2: nat): seq<int>
    decreases pics
  {
    if |pics| == 0 then []
    else
      var out := Result(prev, pics[0], log2);
      [out] + Recovered(Follow(prev, pics[0], out), pics[1..], log2)
  }

  /** The last reference after a run. */
  ghost function LastReference(prev: int, pics: seq<Picture>, log2: nat): int
  {
    if |pics| == 0 then prev
    else
      var n := |pics| - 1;
      var before := LastReference(prev, pics[..n], log2);
      Follow(before, pics[n], Result(before, pics[n], log2))
  }

  lemma {:induction false} LastReferenceCons(prev: int, pics: seq<Picture>, log2: nat)
    requires |pics| > 0
    ensures LastReference(prev, pics, log2) == LastReference(Follow(prev, pics[0], Result(prev, pics[0], log2)),
                                                             pics[1..], log2)
    decreases pics
  {
    var n := |pics| - 1;
    if n > 0 {
      LastReferenceCons(prev, pics[..n], log2);
      assert pics[..n][1..] == pics[1..][..n - 1];
    } else {
      assert pics[..0] == [] && pics[1..] == [];
    }
  }

  /** One picture more. */
  lemma {:induction false} RecoveredSnoc(prev: int, pics: seq<Picture>, pic: Picture, log2: nat)
    ensures Recovered(prev, pics + [pic], log2) == Recovered(prev, pics, log2)
            + [Result(LastReference(prev, pics, log2), pic, log2)]
    ensures LastReference(prev, pics + [pic], log2)
         == Follow(LastReference(prev, pics, log2), pic, Result(LastReference(prev, pics, log2), pic, log2))
    decreases pics
  {
    hide Result, Follow;
    assert (pics + [pic])[..|pics|] == pics;
    if |pics| == 0 {
      assert (pics + [pic])[1..] == [];
    } else {
      assert (pics + [pic])[1..] == pics[1..] + [pic];
      RecoveredSnoc(Follow(prev, pics[0], Result(prev, pics[0], log2)), pics[1..], pic, log2);
      LastReferenceCons(prev, pics, log2);
    }
  }

  function TruePocs(pics: seq<Picture>): seq<int>
  {
    if |pics| == 0 then [] else [pics[0].poc] + TruePocs(pics[1..])
  }

  /** A restart's count is its low bits, any other is in the window around the last reference. */
  ghost predicate InWindow(prev: int, pics: seq<Picture>, log2: nat)
    decreases pics
  {
    |pics| > 0 ==> (
      && (match pics[0]
          case Restart(poc) => 0 <= poc < Pow2(log2)
          case Coded(poc, _) => 0 - Pow2(log2) < 2 * (poc - prev) <= Pow2(log2))
      && InWindow(Follow(prev, pics[0], pics[0].poc), pics[1..], log2))
  }

  lemma LsbFacts(poc: int, log2: nat)
    ensures 0 <= Lsb(poc, log2) < Pow2(log2) && (poc - Lsb(poc, log2)) % Pow2(log2) == 0
    ensures Lsb(poc, log2) == poc <==> 0 <= poc < Pow2(log2)
  {
    hide Pow2;
    var m := Pow2(log2);
    assert poc == m * (poc / m) + poc % m;
    ModShift(0, poc / m, m);
    if 0 <= poc < m { DivModUnique(poc, m, 0, poc); }
  }

  /** Every picture's count is recovered over a whole run exactly when the run keeps to its windows. */
  lemma {:induction false} RunRecovered(prev: int, pics: seq<Picture>, log2: nat)
    ensures Recovered(prev, pics, log2) == TruePocs(pics) <==> InWindow(prev, pics, log2)
    decreases pics
  {
    hide Lsb, Pow2, Closest;
    if |pics| > 0 {
      var pic := pics[0];
      var lsb := Lsb(pic.poc, log2);
      var out := Result(prev, pic, log2);
      LsbFacts(pic.poc, log2);
      ClosestUnique(prev, lsb, log2, pic.poc);
      RunRecovered(Follow(prev, pic, out), pics[1..], log2);
      var rest := Recovered(Follow(prev, pic, out), pics[1..], log2);
      assert ([out] + rest)[0] == out && ([out] + rest)[1..] == rest;
      assert ([pic.poc] + TruePocs(pics[1..]))[0] == pic.poc
             && ([pic.poc] + TruePocs(pics[1..]))[1..] == TruePocs(pics[1..]);
    }
  }

  /** A recovery point inside a chunk taken as a restart keeps its count exactly when its upper part is zero. */
  lemma RestartAgrees(prev: int, poc: int, log2: nat)
    requires 0 - Pow2(log2) < 2 * (poc - prev) <= Pow2(log2)
    ensures Recovered(prev, [Coded(poc, true)], log2) == [poc]
    ensures Recovered(prev, [Restart(poc)], log2) == [poc] <==> 0 <= poc < Pow2(log2)
  {
    hide Lsb, Pow2, Closest;
    RunRecovered(prev, [Coded(poc, true)], log2);
    RunRecovered(prev, [Restart(poc)], log2);
    assert TruePocs([Coded(poc, true)]) == [poc] && TruePocs([Restart(poc)]) == [poc];
  }

  /** For example a CRA picture of count 18 right after count 16, with four low bits, comes out as 2. */
  lemma RestartLosesUpperBits()
    ensures Recovered(16, [Coded(18, true)], 4) == [18] && Recovered(16, [Restart(18)], 4) == [2]
  {
    assert Pow2(4) == 16;
  }
}
