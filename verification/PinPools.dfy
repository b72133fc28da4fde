/**
 * A lock-free pool of buffers: one thread takes, any thread gives back. A free buffer's first word
 * links to the next; giving back pushes by compare-and-exchange, taking swaps the whole list out.
 */
module PinPools {

  /** Buffers are numbered from 1; 0 is null. */
  type Ptr = nat

  const NULL: Ptr := 0

  /** The taking thread: between calls, or with `h` in hand and its link still to be read. */
  datatype Getter = Idle | Popping(h: Ptr)

  /** A giving thread: between calls, about to write `base`'s link, or about to exchange. */
  datatype Putter = Resting | Loaded(base: Ptr, h: Ptr) | Linked(base: Ptr, h: Ptr)

  /** One size class. `next` is the first word of every buffer allocated; `held` are the buffers in use. */
  datatype Pool = Pool(shared: Ptr, local: Ptr, next: map<Ptr, Ptr>, held: set<Ptr>, getter: Getter,
                       putters: seq<Putter>)

  // ---- steps

  ghost predicate Init(s: Pool)
  {
    && s.shared == NULL && s.local == NULL && s.next == map[] && s.held == {} && s.getter == Idle
    && forall t :: 0 <= t < |s.putters| ==> s.putters[t] == Resting
  }

  datatype Action =
    | GetLocal | GetSwap | GetAlloc(b: Ptr, word: Ptr) | GetDone
    | HolderWrite(b: Ptr, word: Ptr)
    | PutBegin(t: nat, b: Ptr, h: Ptr) | PutLink(t: nat) | CasOk(t: nat) | CasFail(t: nat, cur: Ptr)

  /** When an action can happen. A relaxed load may see any value, and an exchange may fail for no reason. */
  ghost predicate Enabled(s: Pool, a: Action)
  {
    match a
    case GetLocal => s.getter.Idle? && s.local != NULL
    case GetSwap => s.getter.Idle? && s.local == NULL && s.shared != NULL
    case GetAlloc(b, _) => s.getter.Idle? && s.local == NULL && s.shared == NULL && b != NULL && b !in s.next
    case GetDone => s.getter.Popping? && s.getter.h in s.next
    case HolderWrite(b, _) => b in s.held
    case PutBegin(t, b, _) => t < |s.putters| && s.putters[t].Resting? && b in s.held
    case PutLink(t) => t < |s.putters| && s.putters[t].Loaded?
    case CasOk(t) => t < |s.putters| && s.putters[t].Linked? && s.shared == s.putters[t].h
    case CasFail(t, _) => t < |s.putters| && s.putters[t].Linked?
  }

  ghost function Do(s: Pool, a: Action): Pool
    requires Enabled(s, a)
  {
    match a
    case GetLocal => s.(getter := Popping(s.local))
    case GetSwap => s.(shared := NULL, getter := Popping(s.shared))
    case GetAlloc(b, word) => s.(next := s.next[b := word], held := s.held + {b})
    case GetDone => s.(local := s.next[s.getter.h], held := s.held + {s.getter.h}, getter := Idle)
    case HolderWrite(b, word) => s.(next := s.next[b := word])
    case PutBegin(t, b, h) => s.(held := s.held - {b}, putters := s.putters[t := Loaded(b, h)])
    case PutLink(t) =>
      var p := s.putters[t];
      s.(next := s.next[p.base := p.h], putters := s.putters[t := Linked(p.base, p.h)])
    case CasOk(t) => s.(shared := s.putters[t].base, putters := s.putters[t := Resting])
    case CasFail(t, cur) => s.(putters := s.putters[t := Loaded(s.putters[t].base, cur)])
  }

  // ---- where the buffers are

  /** `list` is what following links from `h` meets. */
  ghost predicate Chain(next: map<Ptr, Ptr>, h: Ptr, list: seq<Ptr>)
    decreases list
  {
    if |list| == 0 then h == NULL
    else h == list[0] && h != NULL && h in next && Chain(next, next[h], list[1..])
  }

  ghost function Bag(p: Putter): multiset<Ptr> { if p.Resting? then multiset{} else multiset{p.base} }

  /** The buffers being given back. */
  ghost function Pending(putters: seq<Putter>): multiset<Ptr>
  {
    if |putters| == 0 then multiset{} else Pending(putters[..|putters| - 1]) + Bag(putters[|putters| - 1])
  }

  /**
   * Every buffer is in exactly one place, once: the shared list, the list the taking thread owns, a
   * holder's hands, or a pending give.
   */
  ghost predicate Placed(s: Pool, shared: seq<Ptr>, own: seq<Ptr>)
  {
    multiset(s.next.Keys) == multiset(shared) + multiset(own) + multiset(s.held) + Pending(s.putters)
  }

  /** The head of the list the taking thread owns. */
  ghost function OwnHead(s: Pool): Ptr { match s.getter case Idle => s.local case Popping(h) => h }

  /** A thread about to exchange has its buffer linked to the head it saw. */
  ghost predicate LinkHolds(next: map<Ptr, Ptr>, p: Putter)
  {
    p.Linked? ==> p.base in next && next[p.base] == p.h
  }

  ghost predicate Inv(s: Pool, shared: seq<Ptr>, own: seq<Ptr>)
  {
    && NULL !in s.next && Chain(s.next, s.shared, shared) && Chain(s.next, OwnHead(s), own)
       && (s.getter.Popping? ==> s.getter.h != NULL)
    && Placed(s, shared, own)
    && forall t :: 0 <= t < |s.putters| ==> LinkHolds(s.next, s.putters[t])
  }

  // ---- facts

  lemma {:induction false} ChainFrame(next: map<Ptr, Ptr>, h: Ptr, list: seq<Ptr>, b: Ptr, word: Ptr)
    requires Chain(next, h, list) && b !in list
    ensures Chain(next[b := word], h, list)
    decreases list
  {
    if |list| > 0 { ChainFrame(next, next[h], list[1..], b, word); }
  }

  lemma {:induction false} PendingSet(putters: seq<Putter>, t: nat, p: Putter)
    requires t < |putters|
    ensures Pending(putters[t := p]) + Bag(putters[t]) == Pending(putters) + Bag(p)
  {
    var n := |putters| - 1;
    if t < n {
      assert putters[t := p][..n] == putters[..n][t := p];
      PendingSet(putters[..n], t, p);
      BagsMove(Pending(putters[..n][t := p]), Bag(putters[t]), Pending(putters[..n]), Bag(p), Bag(putters[n]));
    } else {
      assert putters[t := p][..n] == putters[..n];
    }
  }

  lemma BagsMove(a: multiset<Ptr>, x: multiset<Ptr>, b: multiset<Ptr>, y: multiset<Ptr>, z: multiset<Ptr>)
    requires a + x == b + y
    ensures (a + z) + x == (b + z) + y
  {
    assert (a + z) + x == (a + x) + z;
  }

  lemma {:induction false} PendingHas(putters: seq<Putter>, t: nat)
    requires t < |putters| && !putters[t].Resting?
    ensures putters[t].base in Pending(putters)
  {
    var n := |putters| - 1;
    if t < n { PendingHas(putters[..n], t); }
  }

  /** A buffer in one place is in no other, and is allocated. */
  lemma OnePlace(s: Pool, shared: seq<Ptr>, own: seq<Ptr>, b: Ptr)
    requires Placed(s, shared, own)
    ensures b in s.held ==> b in s.next && b !in shared && b !in own && b !in Pending(s.putters)
    ensures b in Pending(s.putters) ==>
            b in s.next && b !in shared && b !in own && b !in s.held && Pending(s.putters)[b] == 1
    ensures b in own ==> b in s.next && b !in shared && b !in s.held && multiset(own)[b] == 1
    ensures b in shared ==> b in s.next && b !in own && b !in s.held && multiset(shared)[b] == 1
    ensures b !in s.next ==> b !in shared && b !in own && b !in s.held && b !in Pending(s.putters)
  {
    var all := multiset(s.next.Keys);
    assert all[b] == multiset(shared)[b] + multiset(own)[b] + multiset(s.held)[b] + Pending(s.putters)[b];
    assert all[b] == if b in s.next then 1 else 0;
  }

  /** A pending base belongs to one thread only. */
  lemma PendingOnce(s: Pool, t: nat, u: nat)
    requires t < |s.putters| && u < |s.putters| && t != u && !s.putters[t].Resting? && !s.putters[u].Resting?
    requires forall b :: b in Pending(s.putters) ==> Pending(s.putters)[b] == 1
    ensures s.putters[t].base != s.putters[u].base
  {
    var rest := s.putters[t := Resting];
    PendingSet(s.putters, t, Resting);
    PendingHas(s.putters, t);
    PendingHas(rest, u);
    var b := s.putters[t].base;
    assert (Pending(rest) + multiset{b})[b] == Pending(s.putters)[b];
  }

  lemma PlacedOnce(s: Pool, shared: seq<Ptr>, own: seq<Ptr>)
    requires Placed(s, shared, own)
    ensures forall b :: b in Pending(s.putters) ==> Pending(s.putters)[b] == 1
  {
    forall b | b in Pending(s.putters) ensures Pending(s.putters)[b] == 1 { OnePlace(s, shared, own, b); }
  }

  /** The pending bag after thread `t` moves to `p`. */
  lemma PendingMoved(putters: seq<Putter>, t: nat, p: Putter)
    requires t < |putters|
    ensures putters[t].Resting? && !p.Resting? ==> Pending(putters[t := p]) == Pending(putters) + multiset{p.base}
    ensures !putters[t].Resting? && p.Resting? ==>
            Pending(putters) == Pending(putters[t := p]) + multiset{putters[t].base}
    ensures !putters[t].Resting? && !p.Resting? && p.base == putters[t].base ==>
            Pending(putters[t := p]) == Pending(putters)
  {
    hide Pending;
    PendingSet(putters, t, p);
    BagsCancel(Pending(putters[t := p]), Pending(putters), if putters[t].Resting? then 0 else putters[t].base);
  }

  lemma BagsCancel(a: multiset<Ptr>, b: multiset<Ptr>, x: Ptr)
    ensures a + multiset{x} == b + multiset{x} ==> a == b
  {
    if a + multiset{x} == b + multiset{x} {
      assert a == (a + multiset{x}) - multiset{x};
      assert b == (b + multiset{x}) - multiset{x};
    }
  }

  // ---- each step keeps the invariant

  lemma GetLocalKeeps(s: Pool, shared: seq<Ptr>, own: seq<Ptr>)
    requires Inv(s, shared, own) && Enabled(s, GetLocal)
    ensures Inv(Do(s, GetLocal), shared, own)
  {}

  lemma GetSwapKeeps(s: Pool, shared: seq<Ptr>, own: seq<Ptr>)
    requires Inv(s, shared, own) && Enabled(s, GetSwap)
    ensures own == [] && Inv(Do(s, GetSwap), [], shared)
  {}

  lemma GetAllocKeeps(s: Pool, shared: seq<Ptr>, own: seq<Ptr>, b: Ptr, word: Ptr)
    requires Inv(s, shared, own) && Enabled(s, GetAlloc(b, word))
    ensures Inv(Do(s, GetAlloc(b, word)), shared, own)
  {
    hide Chain, Pending;
    OnePlace(s, shared, own, b);
    ChainFrame(s.next, s.shared, shared, b, word);
    ChainFrame(s.next, s.local, own, b, word);
    var t := Do(s, GetAlloc(b, word));
    assert t.next.Keys == s.next.Keys + {b};
    assert multiset(t.next.Keys) == multiset(s.next.Keys) + multiset{b};
    assert multiset(t.held) == multiset(s.held) + multiset{b};
  }

  lemma GetDoneKeeps(s: Pool, shared: seq<Ptr>, own: seq<Ptr>)
    requires Inv(s, shared, own) && Enabled(s, GetDone)
    ensures |own| > 0 && own[0] == s.getter.h && Inv(Do(s, GetDone), shared, own[1..])
    ensures s.getter.h !in s.held
  {
    hide Pending;
    var h, t := s.getter.h, Do(s, GetDone);
    OnePlace(s, shared, own, h);
    assert own == [h] + own[1..];
    assert multiset(own) == multiset{h} + multiset(own[1..]);
    assert multiset(t.held) == multiset(s.held) + multiset{h};
  }

  lemma WriteKeeps(s: Pool, shared: seq<Ptr>, own: seq<Ptr>, b: Ptr, word: Ptr)
    requires Inv(s, shared, own) && Enabled(s, HolderWrite(b, word))
    ensures Inv(Do(s, HolderWrite(b, word)), shared, own)
  {
    hide Chain, Pending;
    OnePlace(s, shared, own, b);
    ChainFrame(s.next, s.shared, shared, b, word);
    ChainFrame(s.next, OwnHead(s), own, b, word);
    var t := Do(s, HolderWrite(b, word));
    assert t.next.Keys == s.next.Keys;
    forall u | 0 <= u < |s.putters| && s.putters[u].Linked? ensures s.putters[u].base != b { PendingHas(s.putters, u); }
  }

  lemma PutBeginKeeps(s: Pool, shared: seq<Ptr>, own: seq<Ptr>, t: nat, b: Ptr, h: Ptr)
    requires Inv(s, shared, own) && Enabled(s, PutBegin(t, b, h))
    ensures Inv(Do(s, PutBegin(t, b, h)), shared, own)
  {
    hide Chain, Pending;
    PendingMoved(s.putters, t, Loaded(b, h));
    assert multiset(s.held) == multiset(s.held - {b}) + multiset{b};
  }

  lemma PutLinkKeeps(s: Pool, shared: seq<Ptr>, own: seq<Ptr>, t: nat)
    requires Inv(s, shared, own) && Enabled(s, PutLink(t))
    ensures Inv(Do(s, PutLink(t)), shared, own)
  {
    hide Chain, Pending;
    var p := s.putters[t];
    PendingHas(s.putters, t);
    OnePlace(s, shared, own, p.base);
    PlacedOnce(s, shared, own);
    ChainFrame(s.next, s.shared, shared, p.base, p.h);
    ChainFrame(s.next, OwnHead(s), own, p.base, p.h);
    PendingMoved(s.putters, t, Linked(p.base, p.h));
    var r := Do(s, PutLink(t));
    assert r.next.Keys == s.next.Keys;
    forall u | 0 <= u < |s.putters| && u != t && s.putters[u].Linked? ensures s.putters[u].base != p.base {
      PendingOnce(s, t, u);
    }
  }

  /**
   * The exchange is right whatever happened to the list since the head was loaded, its being taken and
   * rebuilt included.
   */
  lemma CasOkKeeps(s: Pool, shared: seq<Ptr>, own: seq<Ptr>, t: nat)
    requires Inv(s, shared, own) && Enabled(s, CasOk(t))
    ensures Inv(Do(s, CasOk(t)), [s.putters[t].base] + shared, own)
  {
    hide Pending;
    var p := s.putters[t];
    PendingHas(s.putters, t);
    PendingMoved(s.putters, t, Resting);
    NotNull(s, shared, own, p.base);
    assert ([p.base] + shared)[1..] == shared;
  }

  lemma CasFailKeeps(s: Pool, shared: seq<Ptr>, own: seq<Ptr>, t: nat, cur: Ptr)
    requires Inv(s, shared, own) && Enabled(s, CasFail(t, cur))
    ensures Inv(Do(s, CasFail(t, cur)), shared, own)
  {
    hide Chain, Pending;
    PendingMoved(s.putters, t, Loaded(s.putters[t].base, cur));
  }

  lemma NotNull(s: Pool, shared: seq<Ptr>, own: seq<Ptr>, b: Ptr)
    requires Inv(s, shared, own) && b in Pending(s.putters)
    ensures b != NULL && b in s.next
  {
    OnePlace(s, shared, own, b);
  }

  /** Any step from a state with the invariant leads to one. */
  lemma StepKeeps(s: Pool, shared: seq<Ptr>, own: seq<Ptr>, a: Action) returns (shared2: seq<Ptr>, own2: seq<Ptr>)
    requires Inv(s, shared, own) && Enabled(s, a)
    ensures Inv(Do(s, a), shared2, own2)
  {
    hide Inv, Enabled, Do;
    shared2, own2 := shared, own;
    match a
    case GetLocal => GetLocalKeeps(s, shared, own);
    case GetSwap =>
      GetSwapKeeps(s, shared, own);
      shared2, own2 := [], shared;
    case GetAlloc(b, word) => GetAllocKeeps(s, shared, own, b, word);
    case GetDone =>
      GetDoneKeeps(s, shared, own);
      own2 := own[1..];
    case HolderWrite(b, word) => WriteKeeps(s, shared, own, b, word);
    case PutBegin(t, b, h) => PutBeginKeeps(s, shared, own, t, b, h);
    case PutLink(t) => PutLinkKeeps(s, shared, own, t);
    case CasOk(t) =>
      InExchange(s, t);
      CasOkKeeps(s, shared, own, t);
      shared2 := [s.putters[t].base] + shared;
    case CasFail(t, cur) => CasFailKeeps(s, shared, own, t, cur);
  }

  lemma InExchange(s: Pool, t: nat)
    requires Enabled(s, CasOk(t))
    ensures t < |s.putters| && s.putters[t].Linked?
  {}

  // ---- whole runs

  /** Any interleaving of the taking thread, the giving threads and the holders. */
  ghost predicate Run(states: seq<Pool>, actions: seq<Action>)
  {
    && |states| == |actions| + 1 && Init(states[0])
    && forall i :: 0 <= i < |actions| ==> Follows(states[i], actions[i], states[i + 1])
  }

  ghost predicate Follows(s: Pool, a: Action, t: Pool) { Enabled(s, a) && t == Do(s, a) }

  lemma {:induction false} RunInv(states: seq<Pool>, actions: seq<Action>, i: nat)
    returns (shared: seq<Ptr>, own: seq<Ptr>)
    requires Run(states, actions) && i < |states|
    ensures Inv(states[i], shared, own)
  {
    hide Inv, Enabled, Do;
    if i == 0 {
      shared, own := [], [];
      InitInv(states[0]);
    } else {
      shared, own := RunInv(states, actions, i - 1);
      assert Follows(states[i - 1], actions[i - 1], states[i - 1 + 1]);
      shared, own := StepKeeps(states[i - 1], shared, own, actions[i - 1]);
    }
  }

  lemma InitInv(s: Pool)
    requires Init(s)
    ensures Inv(s, [], [])
  {
    NonePending(s.putters);
  }

  lemma {:induction false} NonePending(putters: seq<Putter>)
    requires forall t :: 0 <= t < |putters| ==> putters[t] == Resting
    ensures Pending(putters) == multiset{}
  {
    if |putters| > 0 { NonePending(putters[..|putters| - 1]); }
  }

  /**
   * In every state of every run each buffer ever allocated is in exactly one place; in particular
   * neither list has a repeated buffer and no held buffer is on one.
   */
  lemma NoneLost(states: seq<Pool>, actions: seq<Action>, i: nat, b: Ptr) returns (shared: seq<Ptr>, own: seq<Ptr>)
    requires Run(states, actions) && i < |states|
    ensures var s := states[i];
            && Chain(s.next, s.shared, shared) && Chain(s.next, OwnHead(s), own)
            && multiset(shared)[b] + multiset(own)[b] + multiset(s.held)[b] + Pending(s.putters)[b] == if b in s.next
               then 1 else 0
  {
    hide Chain, Pending;
    shared, own := RunInv(states, actions, i);
    var s := states[i];
    assert multiset(s.next.Keys)[b] == multiset(shared)[b] + multiset(own)[b] + multiset(s.held)[b]
           + Pending(s.putters)[b];
  }

  /** What a take returns was in nobody's hands, pending nowhere, and is held from then on. */
  lemma TakenWasFree(states: seq<Pool>, actions: seq<Action>, i: nat)
    requires Run(states, actions) && i < |actions|
    ensures actions[i].GetDone? ==>
      && states[i].getter.Popping?
      && var b := states[i].getter.h;
      b in states[i].next && b !in states[i].held && b !in Pending(states[i].putters)
          && states[i + 1].held == states[i].held + {b}
    ensures actions[i].GetAlloc? ==>
            actions[i].b !in states[i].next && states[i + 1].held == states[i].held + {actions[i].b}
  {
    hide Pending, Chain;
    var shared, own := RunInv(states, actions, i);
    assert Follows(states[i], actions[i], states[i + 1]);
    if actions[i].GetDone? {
      GetDoneKeeps(states[i], shared, own);
      OnePlace(states[i], shared, own, own[0]);
    }
  }

  // ---- dropping the pool

  ghost predicate Distinct(list: seq<Ptr>) { forall i, j :: 0 <= i < j < |list| ==> list[i] != list[j] }

  ghost function Elements(list: seq<Ptr>): set<Ptr> { set b | b in list }

  /** Freeing the head leaves the rest of the list readable. */
  lemma {:induction false} ChainWithout(next: map<Ptr, Ptr>, h: Ptr, list: seq<Ptr>, gone: set<Ptr>)
    requires Chain(next, h, list) && forall b :: b in list ==> b !in gone
    ensures Chain(next - gone, h, list)
    decreases list
  {
    if |list| > 0 {
      assert list[0] in list;
      ChainWithout(next, next[h], list[1..], gone);
    }
  }

  /** The first words of the buffers allocated: only those can be read, and freed. */
  class Memory {
    var words: map<Ptr, Ptr>

    method Load(b: Ptr) returns (word: Ptr)
      requires b in words
      ensures word == words[b]
    {
      word := words[b];
    }

    method Free(b: Ptr)
      requires b in words
      modifies this
      ensures words == old(words) - {b}
    {
      words := words - {b};
    }
  }

  /** Frees one list: each link is read while its buffer is still there, and no buffer goes twice. */
  method FreeList(m: Memory, h0: Ptr, ghost list: seq<Ptr>) returns (freed: seq<Ptr>)
    requires Chain(m.words, h0, list) && Distinct(list)
    modifies m
    ensures freed == list && m.words == old(m.words) - Elements(list)
  {
    freed := [];
    var h := h0;
    ghost var rest := list;
    while h != NULL
      invariant Chain(m.words, h, rest) && Distinct(rest) && freed + rest == list
                && m.words == old(m.words) - Elements(freed)
      decreases rest
    {
      var link := m.Load(h);
      assert freed + [h] + rest[1..] == freed + rest;
      ChainWithout(m.words, link, rest[1..], {h});
      m.Free(h);
      freed := freed + [h];
      rest := rest[1..];
      h := link;
    }
    assert freed + rest == freed;
  }

  /** What stays of a list when another one goes. */
  lemma ListsApart(s: Pool, shared: seq<Ptr>, own: seq<Ptr>)
    requires Inv(s, shared, own) && Pending(s.putters) == multiset{}
    ensures Distinct(own) && Distinct(shared) && (forall b :: b in shared ==> b !in own)
    ensures s.next.Keys - Elements(own) - Elements(shared) == s.held
  {
    hide Chain, Pending;
    var all := multiset(shared) + multiset(own) + multiset(s.held);
    assert all + multiset{} == all == multiset(s.next.Keys);
    assert forall b :: all[b] == multiset(shared)[b] + multiset(own)[b] + multiset(s.held)[b]
           == multiset(s.next.Keys)[b] <= 1;
    Repeats(own);
    Repeats(shared);
    forall b ensures b in s.next.Keys - Elements(own) - Elements(shared) <==> b in s.held {
      assert all[b] == multiset(shared)[b] + multiset(own)[b] + multiset(s.held)[b];
      assert b in shared <==> multiset(shared)[b] > 0;
      assert b in own <==> multiset(own)[b] > 0;
      assert b in s.next.Keys <==> all[b] > 0;
    }
    forall b | b in shared ensures b !in own {
      assert multiset(shared)[b] > 0 && all[b] <= 1;
    }
  }

  /** A buffer listed twice is counted twice. */
  lemma Repeats(list: seq<Ptr>)
    ensures (forall b :: multiset(list)[b] <= 1) ==> Distinct(list)
  {
    forall i, j | 0 <= i < j < |list| && list[i] == list[j] ensures multiset(list)[list[i]] >= 2 {
      assert list == list[..j] + list[j..];
      assert list[..j][i] == list[i] && list[j..][0] == list[i];
      assert list[i] in list[..j] && list[i] in list[j..];
    }
  }

  /** With nobody inside a call, dropping frees exactly the buffers nobody holds, each once; those held stay. */
  method Drop(m: Memory, s: Pool, ghost shared: seq<Ptr>, ghost own: seq<Ptr>) returns (freed: seq<Ptr>)
    requires Inv(s, shared, own) && s.getter == Idle && Pending(s.putters) == multiset{} && m.words == s.next
    modifies m
    ensures multiset(freed) + multiset(s.held) == multiset(s.next.Keys)
    ensures m.words.Keys == s.held
  {
    hide Pending;
    ListsApart(s, shared, own);
    var a := FreeList(m, s.local, own);
    ChainWithout(s.next, s.shared, shared, Elements(own));
    var b := FreeList(m, s.shared, shared);
    freed := a + b;
  }
}
