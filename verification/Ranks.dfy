/** Turning picture order counts into display ranks. */
module Ranks {
  import opened Bytes

  /** `order` lists every index below `n` once. */
  ghost predicate Lists(order: seq<nat>, n: nat)
  {
    && |order| == n && (forall j :: 0 <= j < n ==> order[j] < n)
    && (forall i :: 0 <= i < n ==> i in order)
    && (forall i, j :: 0 <= i < j < n ==> order[i] != order[j])
  }

  ghost predicate SortedBy(keys: seq<nat>, order: seq<nat>)
    requires forall j :: 0 <= j < |order| ==> order[j] < |keys|
  {
    forall i, j :: 0 <= i <= j < |order| ==> keys[order[i]] <= keys[order[j]]
  }

  /** The indices by ascending key, equal keys in any order. */
  method SortByKey(keys: seq<nat>) returns (order: seq<nat>)
    ensures Lists(order, |keys|) && SortedBy(keys, order)
  {
    order := [];
    for k := 0 to |keys|
      invariant Lists(order, k) && SortedBy(keys, order)
    {
      var p := k;
      while p > 0 && keys[order[p - 1]] > keys[k]
        invariant p <= k && forall j :: p <= j < k ==> keys[order[j]] > keys[k]
      {
        p := p - 1;
      }
      ghost var was := order;
      order := order[..p] + [k] + order[p..];
      InsertLists(was, k, p, order);
      InsertSorted(keys, was, k, p, order);
    }
  }

  lemma InsertLists(was: seq<nat>, k: nat, p: nat, order: seq<nat>)
    requires Lists(was, k) && p <= k && order == was[..p] + [k] + was[p..]
    ensures Lists(order, k + 1)
  {
    forall i | 0 <= i < k + 1 ensures i in order {
      if i == k {
        assert order[p] == k;
      } else {
        assert i in was;
        var j :| 0 <= j < k && was[j] == i;
        assert order[if j < p then j else j + 1] == i;
      }
    }
  }

  lemma InsertSorted(keys: seq<nat>, was: seq<nat>, k: nat, p: nat, order: seq<nat>)
    requires k < |keys| && Lists(was, k) && SortedBy(keys, was) && p <= k && order == was[..p] + [k] + was[p..]
             && Lists(order, k + 1)
    requires p > 0 ==> keys[was[p - 1]] <= keys[k]
    requires forall j :: p <= j < k ==> keys[was[j]] > keys[k]
    ensures SortedBy(keys, order)
  {}

  /** Every display number in the chunk becomes its rank. */
  method Rank(disp: array<nat>, frame0: nat) returns (ghost order: seq<nat>)
    requires frame0 <= disp.Length
    modifies disp
    ensures disp[..frame0] == old(disp[..frame0])
    ensures Ranked(old(disp[frame0..]), order, disp[frame0..])
  {
    ghost var was := disp[frame0..];
    var perm := SortByKey(disp[frame0..]);
    order := perm;
    for rank := 0 to |perm|
      invariant disp[..frame0] == old(disp[..frame0])
      invariant forall j :: 0 <= j < rank ==> disp[frame0 + perm[j]] == j
    {
      disp[frame0 + perm[rank]] := rank;
    }
    assert forall j :: 0 <= j < |perm| ==> disp[frame0..][perm[j]] == disp[frame0 + perm[j]];
  }

  /** `ranks[i]` is the place of `keys[i]` in the sorted order. */
  ghost predicate Ranked(keys: seq<nat>, order: seq<nat>, ranks: seq<nat>)
  {
    && |ranks| == |keys| && Lists(order, |keys|) && SortedBy(keys, order)
    && forall j :: 0 <= j < |keys| ==> ranks[order[j]] == j
  }

  lemma PlaceOf(keys: seq<nat>, order: seq<nat>, ranks: seq<nat>, i: nat)
    requires Ranked(keys, order, ranks) && i < |keys|
    ensures ranks[i] < |keys| && order[ranks[i]] == i
  {
    assert i in order;
    var j :| 0 <= j < |order| && order[j] == i;
  }

  /** The ranks are a permutation of 0..n: every table entry is taken by exactly one frame. */
  lemma RanksPermute(keys: seq<nat>, order: seq<nat>, ranks: seq<nat>, r: nat)
    requires Ranked(keys, order, ranks) && r < |keys|
    ensures order[r] < |keys| && ranks[order[r]] == r && forall i :: 0 <= i < |keys| && ranks[i] == r ==> i == order[r]
    ensures forall i :: 0 <= i < |ranks| ==> ranks[i] < |ranks|
  {
    forall i | 0 <= i < |keys| ensures ranks[i] < |keys| && order[ranks[i]] == i { PlaceOf(keys, order, ranks, i); }
  }

  /** A smaller key has a smaller rank. */
  lemma RanksPreserve(keys: seq<nat>, order: seq<nat>, ranks: seq<nat>, i: nat, j: nat)
    requires Ranked(keys, order, ranks) && i < |keys| && j < |keys| && keys[i] < keys[j]
    ensures ranks[i] < ranks[j]
  {
    PlaceOf(keys, order, ranks, i);
    PlaceOf(keys, order, ranks, j);
    assert keys[order[ranks[i]]] < keys[order[ranks[j]]];
  }

  // ---- counts as keys

  /** `as u32`. */
  function Key(poc: int): nat { poc % U32_LIMIT }

  function Keys(pocs: seq<int>): (s: seq<nat>)
    ensures |s| == |pocs|
  {
    seq(|pocs|, i requires 0 <= i < |pocs| => Key(pocs[i]))
  }

  ghost predicate Small(pocs: seq<int>)
  {
    forall i :: 0 <= i < |pocs| ==> -0x8000_0000 <= pocs[i] < 0x8000_0000
  }

  lemma KeyIs(poc: int)
    requires -0x8000_0000 <= poc < 0x8000_0000
    ensures Key(poc) == if poc >= 0 then poc else poc + U32_LIMIT
  {}

  /** A frame with a negative count together with one without. */
  ghost predicate Mixed(pocs: seq<int>)
  {
    exists i, j :: 0 <= i < |pocs| && 0 <= j < |pocs| && pocs[i] < 0 <= pocs[j]
  }

  ghost predicate InPocOrder(pocs: seq<int>, ranks: seq<nat>)
    requires |ranks| == |pocs|
  {
    forall i, j :: 0 <= i < |pocs| && 0 <= j < |pocs| && pocs[i] < pocs[j] ==> ranks[i] < ranks[j]
  }

  /** The ranks follow the picture order counts exactly when negative and other counts are not mixed in a chunk. */
  lemma RankOrder(pocs: seq<int>, order: seq<nat>, ranks: seq<nat>)
    requires Small(pocs) && Ranked(Keys(pocs), order, ranks)
    ensures InPocOrder(pocs, ranks) <==> !Mixed(pocs)
  {
    hide Ranked, Key;
    RankedLength(Keys(pocs), order, ranks);
    forall i, j | 0 <= i < |pocs| && 0 <= j < |pocs| && pocs[i] < pocs[j]
      ensures if pocs[i] < 0 <= pocs[j] then ranks[j] < ranks[i] else ranks[i] < ranks[j]
    {
      KeyIs(pocs[i]);
      KeyIs(pocs[j]);
      if pocs[i] < 0 <= pocs[j] {
        RanksPreserve(Keys(pocs), order, ranks, j, i);
      } else {
        RanksPreserve(Keys(pocs), order, ranks, i, j);
      }
    }
  }

  /** For example counts 0 and -1, whose keys are 0 and 2^32 - 1, keep this order although the second is smaller. */
  lemma MixedSwaps()
    ensures Ranked(Keys([0, -1]), [0, 1], [0, 1]) && Mixed([0, -1]) && !InPocOrder([0, -1], [0, 1])
  {
    var pocs := [0, -1];
    assert Keys(pocs) == [0, U32_LIMIT - 1];
    assert [0, 1][0] == 0 && [0, 1][1] == 1;
    assert pocs[1] < 0 <= pocs[0];
  }

  lemma RankedLength(keys: seq<nat>, order: seq<nat>, ranks: seq<nat>)
    requires Ranked(keys, order, ranks)
    ensures |ranks| == |keys|
  {}
}
