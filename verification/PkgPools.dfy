/**
 * A pool of slots behind a counting semaphore: a bit per slot, in words of 64. A thread acquires a
 * permit, then clears some set bit; giving back sets the bit, then releases the permit.
 */
module PkgPools {

  const WORD: nat := 64

  /** The lowest set bit; the length when there is none. */
  function TrailingZeros(bits: seq<bool>): (b: nat)
    ensures b <= |bits| && (b < |bits| ==> bits[b]) && forall i :: 0 <= i < b ==> !bits[i]
  {
    if |bits| == 0 || bits[0] then 0
    else
      var b := TrailingZeros(bits[1..]);
      assert forall i :: 1 <= i < 1 + b ==> bits[i] == bits[1..][i - 1];
      1 + b
  }

  function Count(bits: seq<bool>): (c: nat)
    ensures c <= |bits|
  {
    if |bits| == 0 then 0 else Count(bits[..|bits| - 1]) + if bits[|bits| - 1] then 1 else 0
  }

  lemma {:induction false} CountSet(bits: seq<bool>, i: nat, v: bool)
    requires i < |bits|
    ensures Count(bits[i := v]) + (if bits[i] then 1 else 0) == Count(bits) + if v then 1 else 0
  {
    var n := |bits| - 1;
    if i < n {
      assert bits[i := v][..n] == bits[..n][i := v];
      CountSet(bits[..n], i, v);
    } else {
      assert bits[i := v][..n] == bits[..n];
    }
  }

  lemma {:induction false} CountSome(bits: seq<bool>)
    requires Count(bits) > 0
    ensures exists i :: 0 <= i < |bits| && bits[i]
  {
    var n := |bits| - 1;
    if bits[n] {
      assert bits[n];
    } else {
      CountSome(bits[..n]);
      var i :| 0 <= i < n && bits[..n][i];
      assert bits[i];
    }
  }

  lemma {:induction false} CountFirst(bits: seq<bool>, n: nat)
    requires n <= |bits| && forall i :: 0 <= i < |bits| ==> (bits[i] <==> i < n)
    ensures Count(bits) == n
  {
    if |bits| > 0 { CountFirst(bits[..|bits| - 1], if n == |bits| then n - 1 else n); }
  }

  // ---- the pool, one thread

  class PkgPool {
    const free: array<bool>
    const words: nat

    ghost predicate Valid()
      reads this
    {
      free.Length == WORD * words
    }

    /** Exactly the `n` slots are free; the rest of the last word is not. */
    constructor (n: nat)
      ensures Valid() && fresh(free) && n <= free.Length
      ensures forall i :: 0 <= i < free.Length ==> (free[i] <==> i < n)
    {
      var w := (n + 63) / WORD;
      var bits := new bool[WORD * w](_ => false);
      words := w;
      free := bits;
      new;
      for k := 0 to w
        invariant bits.Length == WORD * w && free == bits && n <= WORD * w
        invariant forall i :: 0 <= i < bits.Length ==> (bits[i] <==> i < n && i < WORD * k)
      {
        var count := if n - k * WORD < WORD then n - k * WORD else WORD;
        forall b | 0 <= b < count { bits[WORD * k + b] := true; }
      }
    }

    /** Undisturbed, taking clears the lowest bit of the first word with one. */
    method Take() returns (slot: nat)
      requires Valid() && exists i :: 0 <= i < free.Length && free[i]
      modifies free
      ensures slot < free.Length && old(free[slot]) && free[..] == old(free[..])[slot := false]
      ensures forall i :: 0 <= i < slot ==> !old(free[i])
    {
      var w := 0;
      while w < words
        invariant w <= words && free[..] == old(free[..])
        invariant forall i :: 0 <= i < WORD * w ==> !free[i]
      {
        var bits := free[WORD * w..WORD * w + WORD];
        var b := TrailingZeros(bits);
        assert forall i :: 0 <= i < WORD ==> bits[i] == free[WORD * w + i];
        if b < WORD {
          slot := WORD * w + b;
          free[slot] := false;
          return;
        }
        w := w + 1;
      }
      assert false;
    }

    method Give(slot: nat)
      requires slot < free.Length
      modifies free
      ensures free[..] == old(free[..])[slot := true]
    {
      free[slot] := true;
    }
  }

  // ---- any number of threads

  /** A thread inside `take` scans word `w`, holding the bits it last read there. */
  datatype Taker = Outside | Scanning(w: nat, bits: seq<bool>)

  /**
   * `sem` permits available, `free` the bits, `owned` the slots handed out, once for every owner, and
   * `unreleased` the gives whose bit is set but whose permit is not back yet.
   */
  datatype Pool = Pool(n: nat, sem: nat, free: seq<bool>, owned: multiset<nat>, takers: seq<Taker>, unreleased: nat)

  ghost predicate Init(s: Pool)
  {
    && s.sem == s.n && s.n <= |s.free| && |s.free| % WORD == 0 && s.owned == multiset{} && s.unreleased == 0
    && (forall i :: 0 <= i < |s.free| ==> (s.free[i] <==> i < s.n))
    && (forall t :: 0 <= t < |s.takers| ==> s.takers[t] == Outside)
  }

  datatype Action = Acquire(t: nat) | Load(t: nat, w: nat) | TryBit(t: nat) | Give(slot: nat) | Release

  ghost predicate Enabled(s: Pool, a: Action)
  {
    match a
    case Acquire(t) => t < |s.takers| && s.takers[t] == Outside && s.sem > 0
    case Load(t, w) => t < |s.takers| && s.takers[t].Scanning? && WORD * w + WORD <= |s.free|
    case TryBit(t) =>
      && t < |s.takers| && s.takers[t].Scanning? && TrailingZeros(s.takers[t].bits) < |s.takers[t].bits|
      && Bit(s.takers[t]) < |s.free|
    case Give(slot) => slot in s.owned && slot < |s.free|
    case Release => s.unreleased > 0
  }

  /** The slot a scanning thread tries next. */
  function Bit(t: Taker): nat
    requires t.Scanning?
  {
    WORD * t.w + TrailingZeros(t.bits)
  }

  ghost function Do(s: Pool, a: Action): Pool
    requires Enabled(s, a)
  {
    match a
    case Acquire(t) => s.(sem := s.sem - 1, takers := s.takers[t := Scanning(0, [])])
    case Load(t, w) => s.(takers := s.takers[t := Scanning(w, s.free[WORD * w..WORD * w + WORD])])
    case TryBit(t) =>
      var i := Bit(s.takers[t]);
      var cleared := s.(free := s.free[i := false]);
      if s.free[i] then cleared.(owned := s.owned + multiset{i}, takers := s.takers[t := Outside])
      else cleared.(takers := s.takers[t := Scanning(s.takers[t].w, Word(cleared.free, s.takers[t].w))])
    case Give(slot) => s.(owned := s.owned - multiset{slot}, free := s.free[slot := true],
                          unreleased := s.unreleased + 1)
    case Release => s.(sem := s.sem + 1, unreleased := s.unreleased - 1)
  }

  function Word(free: seq<bool>, w: nat): seq<bool>
  {
    if WORD * w + WORD <= |free| then free[WORD * w..WORD * w + WORD] else []
  }

  /** Threads inside `take`: each holds a permit. */
  function Inside(takers: seq<Taker>): nat
  {
    if |takers| == 0 then 0 else Inside(takers[..|takers| - 1]) + if takers[|takers| - 1].Scanning? then 1 else 0
  }

  lemma {:induction false} InsideSet(takers: seq<Taker>, t: nat, p: Taker)
    requires t < |takers|
    ensures Inside(takers[t := p]) + (if takers[t].Scanning? then 1 else 0)
            == Inside(takers) + if p.Scanning? then 1 else 0
  {
    var n := |takers| - 1;
    if t < n {
      assert takers[t := p][..n] == takers[..n][t := p];
      InsideSet(takers[..n], t, p);
    } else {
      assert takers[t := p][..n] == takers[..n];
    }
  }

  /**
   * A slot is free or handed out to one owner, never both; and the free bits are exactly the permits available,
   * those held inside `take`, and those still to be released.
   */
  ghost predicate Inv(s: Pool)
  {
    && (forall i :: 0 <= i < |s.free| ==> (s.free[i] <==> i < s.n && i !in s.owned))
    && (forall i :: i in s.owned ==> i < s.n && s.owned[i] == 1) && s.n <= |s.free|
    && Count(s.free) == s.sem + Inside(s.takers) + s.unreleased
  }

  lemma InitInv(s: Pool)
    requires Init(s)
    ensures Inv(s)
  {
    CountFirst(s.free, s.n);
    NoneInside(s.takers);
  }

  lemma {:induction false} NoneInside(takers: seq<Taker>)
    requires forall t :: 0 <= t < |takers| ==> takers[t] == Outside
    ensures Inside(takers) == 0
  {
    if |takers| > 0 { NoneInside(takers[..|takers| - 1]); }
  }

  lemma StepKeeps(s: Pool, a: Action)
    requires Inv(s) && Enabled(s, a)
    ensures Inv(Do(s, a))
  {
    hide Count, Inside, TrailingZeros;
    match a
    case Acquire(t) => InsideSet(s.takers, t, Scanning(0, []));
    case Load(t, w) => InsideSet(s.takers, t, Scanning(w, s.free[WORD * w..WORD * w + WORD]));
    case TryBit(t) => TryKeeps(s, t);
    case Give(slot) => CountSet(s.free, slot, true);
    case Release =>
  }

  lemma TryKeeps(s: Pool, t: nat)
    requires Inv(s) && Enabled(s, TryBit(t))
    ensures Inv(Do(s, TryBit(t)))
  {
    hide Count, Inside, TrailingZeros, Word;
    CountSet(s.free, Bit(s.takers[t]), false);
    InsideSet(s.takers, t, Do(s, TryBit(t)).takers[t]);
  }

  ghost predicate Follows(s: Pool, a: Action, t: Pool) { Enabled(s, a) && t == Do(s, a) }

  ghost predicate Run(states: seq<Pool>, actions: seq<Action>)
  {
    && |states| == |actions| + 1 && Init(states[0])
    && forall i :: 0 <= i < |actions| ==> Follows(states[i], actions[i], states[i + 1])
  }

  lemma {:induction false} RunInv(states: seq<Pool>, actions: seq<Action>, i: nat)
    requires Run(states, actions) && i < |states|
    ensures Inv(states[i])
  {
    hide Inv, Enabled, Do;
    if i == 0 {
      InitInv(states[0]);
    } else {
      RunInv(states, actions, i - 1);
      assert Follows(states[i - 1], actions[i - 1], states[i - 1 + 1]);
      StepKeeps(states[i - 1], actions[i - 1]);
    }
  }

  /** In every state of every run a thread inside `take` has a free slot to find. */
  lemma SlotToFind(states: seq<Pool>, actions: seq<Action>, i: nat, t: nat)
    requires Run(states, actions) && i < |states| && t < |states[i].takers| && states[i].takers[t].Scanning?
    ensures exists b :: 0 <= b < |states[i].free| && states[i].free[b]
  {
    hide Count;
    RunInv(states, actions, i);
    InsideSet(states[i].takers, t, Outside);
    CountSome(states[i].free);
  }

  /** In every state of every run no slot has two owners, and one that has an owner cannot be found free. */
  lemma OneOwner(states: seq<Pool>, actions: seq<Action>, i: nat, b: nat)
    requires Run(states, actions) && i < |states|
    ensures states[i].owned[b] <= 1
    ensures b in states[i].owned ==> b < states[i].n <= |states[i].free| && !states[i].free[b]
  {
    hide Count, Inside;
    RunInv(states, actions, i);
  }

  /** A bit found set is a slot nobody has, and goes to the finder alone; one found clear hands out nothing. */
  lemma HandedOut(states: seq<Pool>, actions: seq<Action>, i: nat)
    requires Run(states, actions) && i < |actions| && actions[i].TryBit?
    ensures var s, t := states[i], actions[i].t;
            && t < |s.takers| && s.takers[t].Scanning? && Bit(s.takers[t]) < |s.free| == |states[i + 1].free|
            && var b := Bit(s.takers[t]);
            && !states[i + 1].free[b]
            && (if s.free[b] then b < s.n && b !in s.owned && states[i + 1].owned == s.owned + multiset{b}
                else states[i + 1].owned == s.owned)
  {
    hide Count, Inside, TrailingZeros;
    RunInv(states, actions, i);
    assert Follows(states[i], actions[i], states[i + 1]);
  }
}
