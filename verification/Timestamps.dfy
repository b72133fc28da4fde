/** Presentation timestamps in milliseconds. */
module Timestamps {
  import opened Bytes

  /** Frame number to milliseconds, rounded to nearest. */
  function PtsMs(frame: nat, num: nat, den: nat): nat
    requires num >= 1
  {
    Div(frame * (den * 1000) + num / 2, num)
  }

  /** The remainder form of the table is the rounded division, frame by frame. */
  method PtsTable(frames: nat, num: nat, den: nat) returns (tab: seq<nat>)
    requires num >= 1
    ensures |tab| == frames + 1
    ensures forall f :: 0 <= f <= frames ==> tab[f] == PtsMs(f, num, den)
  {
    hide PtsMs;
    var step := den * 1000;
    var msStep, remStep := Div(step, num), step % num;
    var ms: nat, rem: nat := 0, num / 2;
    tab := [];
    for f := 0 to frames + 1
      invariant |tab| == f && rem < num
      invariant Counted(f, num, step, ms, rem)
      invariant forall g :: 0 <= g < f ==> tab[g] == PtsMs(g, num, den)
    {
      CountedIsPts(f, num, den, ms, rem);
      tab := tab + [ms];
      CountedStep(f, num, step, ms, rem);
      ms := ms + msStep;
      rem := rem + remStep;
      if rem >= num {
        ms := ms + 1;
        rem := rem - num;
      }
    }
  }

  /** `ms` whole milliseconds and `rem` units of 1/num account for `f` frames and the rounding half. */
  ghost predicate Counted(f: nat, num: nat, step: nat, ms: nat, rem: nat)
  {
    num * ms + rem == f * step + num / 2
  }

  lemma CountedIsPts(f: nat, num: nat, den: nat, ms: nat, rem: nat)
    requires num >= 1 && rem < num && Counted(f, num, den * 1000, ms, rem)
    ensures ms == PtsMs(f, num, den)
  {
    DivModUnique(f * (den * 1000) + num / 2, num, ms, rem);
  }

  lemma CountedStep(f: nat, num: nat, step: nat, ms: nat, rem: nat)
    requires num >= 1 && rem < num && Counted(f, num, step, ms, rem)
    ensures var m, r := ms + Div(step, num), rem + step % num;
            && r < 2 * num
            && (r < num ==> Counted(f + 1, num, step, m, r))
            && (r >= num ==> Counted(f + 1, num, step, m + 1, r - num))
  {
    var q := Div(step, num);
    assert num * (ms + q) == num * ms + num * q;
    assert num * (ms + q + 1) == num * ms + num * q + num;
    assert (f + 1) * step == f * step + step;
  }

  lemma PtsMono(f: nat, g: nat, num: nat, den: nat)
    requires num >= 1 && f <= g
    ensures PtsMs(f, num, den) <= PtsMs(g, num, den)
  {
    MulAtMost(f, g, den * 1000);
    DivMono(f * (den * 1000) + num / 2, g * (den * 1000) + num / 2, num);
  }

  /** The number of milliseconds nearest to the frame's exact time, and of two equally near the later. */
  lemma PtsNearest(frame: nat, num: nat, den: nat)
    requires num >= 1
    ensures var off := PtsMs(frame, num, den) * num - frame * den * 1000; 0 - num < 2 * off <= num
  {
    var x := frame * (den * 1000);
    assert x == frame * den * 1000;
    var m := Div(x + num / 2, num);
    assert num * m == m * num;
  }

  lemma DivMono(a: nat, b: nat, d: nat)
    requires d > 0 && a <= b
    ensures Div(a, d) <= Div(b, d)
  {
    var p, q := Div(a, d), Div(b, d);
    assert (q + 1) * d == d * q + d && p * d == d * p;
    if p > q { MulAtMost(q + 1, p, d); }
  }

  /** A table whose entries never step back. */
  ghost predicate Ascending(tab: seq<nat>)
  {
    forall i, j :: 0 <= i <= j < |tab| ==> tab[i] <= tab[j]
  }

  lemma TableAscending(tab: seq<nat>, num: nat, den: nat)
    requires num >= 1
    requires forall f :: 0 <= f < |tab| ==> tab[f] == PtsMs(f, num, den)
    ensures Ascending(tab)
  {
    hide PtsMs;
    forall i, j | 0 <= i <= j < |tab| ensures tab[i] <= tab[j] { PtsMono(i, j, num, den); }
  }

  /** `as i16`. */
  function WrapI16(x: int): i16 { (x + 0x8000) % 0x1_0000 - 0x8000 }

  /** (timestamp relative to the cluster, duration) of frame `f`. */
  function Timing(tab: seq<u64>, f: nat, ts: u64): (i16, u64)
    requires f + 1 < |tab| && tab[f] <= tab[f + 1]
  {
    (WrapI16(tab[f] - ts), tab[f + 1] - tab[f])
  }

  /** The relative timestamp leads back to the frame's time exactly when it fits sixteen bits. */
  lemma RelativeExact(tab: seq<u64>, f: nat, ts: u64)
    requires f + 1 < |tab| && tab[f] <= tab[f + 1]
    ensures ts + Timing(tab, f, ts).0 == tab[f] <==> -0x8000 <= tab[f] - ts < 0x8000
    ensures tab[f] + Timing(tab, f, ts).1 == tab[f + 1]
  {}
}
