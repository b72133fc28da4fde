/** The three-state futex mutex: free, held, held with possible sleepers. */
module Mutexes {

  /**
   * A thread: outside; about to try the fast exchange; spinning; about to try again; about to swap in
   * 2; about to sleep; asleep; holding the lock; or done with it and owing a wake.
   */
  datatype Thread = Outside | Trying | Spinning | Retrying | Swapping | Sleepy | Asleep | Holding | Waking

  datatype Lock = Lock(word: nat, threads: seq<Thread>)

  datatype Action =
    | Begin(t: nat) | FastCas(t: nat) | SpinOn(t: nat) | SlowCas(t: nat) | Swap(t: nat)
    | Wait(t: nat) | Spurious(t: nat) | Release(t: nat) | Wake(t: nat, u: nat) | WakeNone(t: nat)

  ghost predicate Init(s: Lock) { s.word == 0 && forall t :: 0 <= t < |s.threads| ==> s.threads[t] == Outside }

  predicate At(s: Lock, t: nat, pc: Thread) { t < |s.threads| && s.threads[t] == pc }

  ghost predicate Enabled(s: Lock, a: Action)
  {
    match a
    case Begin(t) => At(s, t, Outside)
    case FastCas(t) => At(s, t, Trying)
    case SpinOn(t) => At(s, t, Spinning)
    case SlowCas(t) => At(s, t, Retrying)
    case Swap(t) => At(s, t, Swapping)
    case Wait(t) => At(s, t, Sleepy)
    case Spurious(t) => At(s, t, Asleep)
    case Release(t) => At(s, t, Holding)
    case Wake(t, u) => At(s, t, Waking) && At(s, u, Asleep)
    case WakeNone(t) => At(s, t, Waking) && !Any(s, Asleep)
  }

  function Go(s: Lock, t: nat, pc: Thread): Lock
    requires t < |s.threads|
  {
    s.(threads := s.threads[t := pc])
  }

  /** What an action does; the kernel puts a thread to sleep only while the word is 2. */
  ghost function Do(s: Lock, a: Action): Lock
    requires Enabled(s, a)
  {
    match a
    case Begin(t) => Go(s, t, Trying)
    case FastCas(t) => if s.word == 0 then Go(s, t, Holding).(word := 1) else Go(s, t, Spinning)
    case SpinOn(t) => Go(s, t, Retrying)
    case SlowCas(t) => if s.word == 0 then Go(s, t, Holding).(word := 1) else Go(s, t, Swapping)
    case Swap(t) => Go(s, t, if s.word == 0 then Holding else Sleepy).(word := 2)
    case Wait(t) => Go(s, t, if s.word == 2 then Asleep else Swapping)
    case Spurious(t) => Go(s, t, Swapping)
    case Release(t) => Go(s, t, if s.word == 2 then Waking else Outside).(word := 0)
    case Wake(t, u) => Go(Go(s, t, Outside), u, Swapping)
    case WakeNone(t) => Go(s, t, Outside)
  }

  /** Some thread is there. */
  ghost predicate Any(s: Lock, pc: Thread) { exists t: nat :: At(s, t, pc) }

  ghost predicate Inv(s: Lock)
  {
    && s.word <= 2
    && (s.word == 0 <==> !Any(s, Holding))
    && (forall t: nat, u: nat :: At(s, t, Holding) && At(s, u, Holding) ==> t == u)
    && (Any(s, Asleep) ==> s.word == 2 || Any(s, Waking) || Any(s, Swapping))
  }

  lemma InitInv(s: Lock)
    requires Init(s)
    ensures Inv(s)
  {}

  /** Threads other than `t` are where they were. */
  lemma Elsewhere(s: Lock, t: nat, pc: Thread, now: Thread)
    requires t < |s.threads|
    ensures Any(s, pc) && s.threads[t] != pc ==> Any(Go(s, t, now), pc)
    ensures now == pc ==> Any(Go(s, t, now), pc)
    ensures Any(Go(s, t, now), pc) && now != pc ==> Any(s, pc)
  {
    var r := Go(s, t, now);
    if Any(s, pc) && s.threads[t] != pc {
      var u: nat :| At(s, u, pc);
      assert At(r, u, pc);
    }
    if now == pc { assert At(r, t, pc); }
    if Any(r, pc) && now != pc {
      var u: nat :| At(r, u, pc);
      assert At(s, u, pc);
    }
  }

  /** A step that neither takes nor gives the lock up. */
  lemma MoveKeeps(s: Lock, t: nat, now: Thread, word: nat)
    requires Inv(s) && t < |s.threads| && s.threads[t] != Holding && now != Holding
    requires word == s.word || (s.word != 0 && word == 2)
    requires now == Asleep ==> s.word == 2
    requires s.threads[t] == Swapping ==> word == 2 || now == Swapping
    requires s.threads[t] == Waking ==> !Any(s, Asleep) && now != Asleep
    ensures Inv(Go(s, t, now).(word := word))
  {
    hide Any;
    AnySame(Go(s, t, now), word);
    Elsewhere(s, t, Holding, now);
    Elsewhere(s, t, Asleep, now);
    Elsewhere(s, t, Waking, now);
    Elsewhere(s, t, Swapping, now);
    AtGo(s, t, now, word);
  }

  /** Only the thread that moved is elsewhere. */
  lemma AtGo(s: Lock, t: nat, now: Thread, word: nat)
    requires t < |s.threads|
    ensures forall u: nat, pc :: At(Go(s, t, now).(word := word), u, pc) <==> if u == t then pc == now else At(s, u, pc)
  {}

  /** Where threads are does not depend on the word. */
  lemma AnySame(s: Lock, word: nat)
    ensures forall pc :: Any(s.(word := word), pc) <==> Any(s, pc)
  {
    forall pc ensures Any(s.(word := word), pc) <==> Any(s, pc) {
      if Any(s, pc) {
        var u: nat :| At(s, u, pc);
        assert At(s.(word := word), u, pc);
      }
      if Any(s.(word := word), pc) {
        var u: nat :| At(s.(word := word), u, pc);
        assert At(s, u, pc);
      }
    }
  }

  /** The lock is free, and thread `t` takes it. */
  lemma TakeKeeps(s: Lock, t: nat, word: nat)
    requires Inv(s) && t < |s.threads| && s.word == 0 && (word == 1 || word == 2)
    requires s.threads[t] != Waking && (s.threads[t] == Swapping ==> word == 2)
    ensures Inv(Go(s, t, Holding).(word := word))
  {
    hide Any;
    AnySame(Go(s, t, Holding), word);
    Elsewhere(s, t, Holding, Holding);
    Elsewhere(s, t, Asleep, Holding);
    Elsewhere(s, t, Waking, Holding);
    Elsewhere(s, t, Swapping, Holding);
    AtGo(s, t, Holding, word);
    NoneAt(s, Holding);
  }

  lemma NoneAt(s: Lock, pc: Thread)
    ensures !Any(s, pc) ==> forall u: nat :: !At(s, u, pc)
  {}

  lemma ReleaseKeeps(s: Lock, t: nat)
    requires Inv(s) && At(s, t, Holding)
    ensures Inv(Do(s, Release(t)))
  {
    var now := if s.word == 2 then Waking else Outside;
    var r := Go(s, t, now).(word := 0);
    AnySame(Go(s, t, now), 0);
    Elsewhere(s, t, Asleep, now);
    Elsewhere(s, t, Waking, now);
    Elsewhere(s, t, Swapping, now);
    AtGo(s, t, now, 0);
    assert forall u: nat :: !At(r, u, Holding);
  }

  lemma WakeKeeps(s: Lock, t: nat, u: nat)
    requires Inv(s) && At(s, t, Waking) && At(s, u, Asleep)
    ensures Inv(Do(s, Wake(t, u)))
  {
    hide Any;
    var m := Go(s, t, Outside);
    var r := Go(m, u, Swapping);
    Elsewhere(s, t, Holding, Outside);
    Elsewhere(m, u, Holding, Swapping);
    Elsewhere(m, u, Swapping, Swapping);
    AtGo(s, t, Outside, s.word);
    AtGo(m, u, Swapping, s.word);
  }

  /** Every step keeps the invariant. */
  lemma StepKeeps(s: Lock, a: Action)
    requires Inv(s) && Enabled(s, a)
    ensures Inv(Do(s, a))
  {
    hide Inv, Any;
    match a
    case Begin(t) => MoveKeeps(s, t, Trying, s.word);
    case FastCas(t) => if s.word == 0 { TakeKeeps(s, t, 1); } else { MoveKeeps(s, t, Spinning, s.word); }
    case SpinOn(t) => MoveKeeps(s, t, Retrying, s.word);
    case SlowCas(t) => if s.word == 0 { TakeKeeps(s, t, 1); } else { MoveKeeps(s, t, Swapping, s.word); }
    case Swap(t) => if s.word == 0 { TakeKeeps(s, t, 2); } else { MoveKeeps(s, t, Sleepy, 2); }
    case Wait(t) => MoveKeeps(s, t, if s.word == 2 then Asleep else Swapping, s.word);
    case Spurious(t) => MoveKeeps(s, t, Swapping, s.word);
    case Release(t) => ReleaseKeeps(s, t);
    case Wake(t, u) => WakeKeeps(s, t, u);
    case WakeNone(t) => MoveKeeps(s, t, Outside, s.word);
  }

  // ---- whole runs

  ghost predicate Follows(s: Lock, a: Action, t: Lock) { Enabled(s, a) && t == Do(s, a) }

  ghost predicate Run(states: seq<Lock>, actions: seq<Action>)
  {
    && |states| == |actions| + 1 && Init(states[0])
    && forall i :: 0 <= i < |actions| ==> Follows(states[i], actions[i], states[i + 1])
  }

  lemma {:induction false} RunInv(states: seq<Lock>, actions: seq<Action>, i: nat)
    requires Run(states, actions) && i < |states|
    ensures Inv(states[i])
  {
    hide Inv, Enabled, Do;
    if i == 0 {
      InitInv(states[0]);
    } else {
      RunInv(states, actions, i - 1);
      assert Follows(states[i - 1], actions[i - 1], states[i - 1 + 1]);
      StepKeeps(states[i - 1], actions[i - 1]);
    }
  }

  /** However many threads: at most one holds the lock. */
  lemma MutualExclusion(states: seq<Lock>, actions: seq<Action>, i: nat, t: nat, u: nat)
    requires Run(states, actions) && i < |states| && At(states[i], t, Holding) && At(states[i], u, Holding)
    ensures t == u
  {
    RunInv(states, actions, i);
  }

  /**
   * No wake-up is lost: with a sleeper, the word is 2 and somebody holds the lock, or a releaser still
   * owes a wake, or an awake thread is about to swap in 2.
   */
  lemma NoLostWake(states: seq<Lock>, actions: seq<Action>, i: nat)
    requires Run(states, actions) && i < |states| && Any(states[i], Asleep)
    ensures var s := states[i];
            (s.word == 2 && Any(s, Holding)) || Any(s, Waking) || Any(s, Swapping)
  {
    hide Any;
    RunInv(states, actions, i);
  }

  /** While one thread sleeps, another that does not has a step it can take. */
  lemma NoDeadlock(states: seq<Lock>, actions: seq<Action>, i: nat) returns (a: Action)
    requires Run(states, actions) && i < |states| && Any(states[i], Asleep)
    ensures Enabled(states[i], a) && a.t < |states[i].threads| && states[i].threads[a.t] != Asleep
  {
    var s := states[i];
    NoLostWake(states, actions, i);
    if Any(s, Waking) {
      var t: nat, u: nat :| At(s, t, Waking) && At(s, u, Asleep);
      a := Wake(t, u);
    } else if Any(s, Swapping) {
      var t: nat :| At(s, t, Swapping);
      a := Swap(t);
    } else {
      var t: nat :| At(s, t, Holding);
      a := Release(t);
    }
  }
}
