/**
 The coroutine mutex as a transition system: one transition per atomic operation on the state
 word and per step of the holder's private work, interleaved in every possible way.

 Agents are coroutines; an agent's number is also the address of its awaiter, so an address is
 reused each time the same agent locks again.  `pushed`, `granted`, `taken`, `turned` and
 `owner` are history: they are written but never read by the protocol.
 */
module CoMutex {

  import opened Basics
  import opened Chains

  /** The atomic word: 0, 1, or the address of the most recently pushed awaiter. */
  datatype Word = Unlocked | LockedNoWaiters | Top(awaiter: nat)

  datatype PC =
    | Idle
    | Load                                        // await_suspend: before the first load
    | Decide(seen: Word)                          // head of the retry loop
    | TryAcquire                                  // about to CAS 0 -> 1
    | TryPush(seen: Word)                         // next_ written, about to CAS seen -> this
    | Waiting                                     // suspended
    | Holding                                     // in the critical section
    | CheckList                                   // unlock: test waiters_head_
    | Exchange1                                   // first exchange
    | CasUnlock                                   // CAS 1 -> 0
    | Exchange2                                   // second exchange
    | Reverse(current: Option<nat>, prev: Option<nat>)
    | CheckHead                                   // test waiters_head_ again
    | Pop                                         // take the first waiter off the private list
    | Grant(next: nat)                            // schedule it
    | Fault                                       // dereference of an address that is not an awaiter

  datatype State = State(
    word: Word,
    head: Option<nat>,
    next: seq<Option<nat>>,
    pc: seq<PC>,
    pushed: seq<nat>,
    granted: seq<nat>,
    taken: nat,
    turned: nat,
    owner: Option<nat>)

  function Address(w: Word): Option<nat> {
    if w.Top? then Some(w.awaiter) else None
  }

  /** One step of agent `a`; `lucky` tells whether a weak CAS that could succeed does. */
  function Step(s: State, a: nat, lucky: bool): (s': State)
    requires a < |s.pc| == |s.next|
    ensures |s'.pc| == |s'.next| == |s.pc|
  {
    match s.pc[a]
    case Idle => s.(pc := s.pc[a := Load])
    case Load => s.(pc := s.pc[a := Decide(s.word)])
    case Decide(seen) =>
      if seen == Unlocked then s.(pc := s.pc[a := TryAcquire])
      else s.(pc := s.pc[a := TryPush(seen)], next := s.next[a := Address(seen)])
    case TryAcquire =>
      if s.word == Unlocked && lucky
      then s.(pc := s.pc[a := Holding], word := LockedNoWaiters, owner := Some(a))
      else s.(pc := s.pc[a := Decide(s.word)])
    case TryPush(seen) =>
      if s.word == seen && lucky
      then s.(pc := s.pc[a := Waiting], word := Top(a), pushed := s.pushed + [a])
      else s.(pc := s.pc[a := Decide(s.word)])
    case Waiting => s
    case Holding => s.(pc := s.pc[a := CheckList])
    case CheckList => s.(pc := s.pc[a := if s.head == None then Exchange1 else Pop])
    case Exchange1 =>
      if s.word == LockedNoWaiters then s.(pc := s.pc[a := CasUnlock])
      else TakeAll(s, a)
    case CasUnlock =>
      if s.word == LockedNoWaiters
      then s.(pc := s.pc[a := Idle], word := Unlocked, owner := None)
      else s.(pc := s.pc[a := Exchange2])
    case Exchange2 =>
      if s.word == LockedNoWaiters then s.(pc := s.pc[a := Fault])
      else TakeAll(s, a)
    case Reverse(current, prev) =>
      (match current
       case None => s.(pc := s.pc[a := CheckHead], head := prev)
       case Some(n) =>
         if n < |s.next|
         then s.(pc := s.pc[a := Reverse(s.next[n], current)], next := s.next[n := prev], turned := s.turned + 1)
         else s.(pc := s.pc[a := Fault]))
    case CheckHead => s.(pc := s.pc[a := if s.head == None then Idle else Pop])
    case Pop =>
      if s.head.Some? && s.head.value < |s.next|
      then s.(pc := s.pc[a := Grant(s.head.value)], head := s.next[s.head.value])
      else s.(pc := s.pc[a := Fault])
    case Grant(n) =>
      if n < |s.pc|
      then s.(pc := s.pc[a := Idle][n := Holding], granted := s.granted + [n], owner := Some(n))
      else s.(pc := s.pc[a := Fault])
    case Fault => s
  }

  /** The exchange that takes the whole stack of waiters. */
  function TakeAll(s: State, a: nat): State
    requires a < |s.pc|
  {
    s.(pc := s.pc[a := Reverse(Address(s.word), None)], word := LockedNoWaiters,
       taken := |s.pushed|, turned := 0)
  }

  function Initial(n: nat): State {
    State(Unlocked, None, seq(n, _ => None), seq(n, _ => Idle), [], [], 0, 0, None)
  }

  datatype Move = Move(agent: nat, lucky: bool)

  predicate Legal(n: nat, moves: seq<Move>) {
    forall i :: 0 <= i < |moves| ==> moves[i].agent < n
  }

  /** The state after a run of `moves` by `n` agents. */
  function Run(n: nat, moves: seq<Move>): (s: State)
    requires Legal(n, moves)
    ensures |s.pc| == |s.next| == n
  {
    if moves == [] then Initial(n) else
    var m := moves[|moves| - 1];
    Step(Run(n, moves[..|moves| - 1]), m.agent, m.lucky)
  }

  // --- The invariant --------------------------------------------------------------------

  function Rev(list: seq<nat>): seq<nat> {
    seq(|list|, i requires 0 <= i < |list| => list[|list| - 1 - i])
  }

  /** Holding the lock or inside `unlock`. */
  predicate Critical(p: PC) {
    p.Holding? || p.CheckList? || p.Exchange1? || p.CasUnlock? || p.Exchange2? || p.Reverse?
    || p.CheckHead? || p.Pop? || p.Grant?
  }

  ghost predicate Counts(s: State) {
    && |s.pc| == |s.next|
    && |s.granted| <= s.taken <= |s.pushed|
    && s.granted == s.pushed[..|s.granted|]
  }

  /** Waiters still to be granted the lock, in order of their pushes. */
  function Queue(s: State): seq<nat>
    requires |s.granted| <= |s.pushed|
  {
    s.pushed[|s.granted|..]
  }

  /** The part of the queue the holder has taken off the word. */
  function Private(s: State): seq<nat>
    requires |s.granted| <= s.taken <= |s.pushed|
  {
    s.pushed[|s.granted|..s.taken]
  }

  /** The part still on the word. */
  function Stack(s: State): seq<nat>
    requires s.taken <= |s.pushed|
  {
    s.pushed[s.taken..]
  }

  ghost predicate QueueInv(s: State)
    requires Counts(s)
  {
    && Distinct(Queue(s))
    && (forall n :: n in Queue(s) ==> n < |s.pc| && s.pc[n] == Waiting)
    && (forall a :: 0 <= a < |s.pc| && s.pc[a] == Waiting ==> a in Queue(s))
  }

  ghost predicate OwnerInv(s: State) {
    && (s.owner == None <==> s.word == Unlocked)
    && (s.owner.Some? ==> s.owner.value < |s.pc|)
    && (forall a :: 0 <= a < |s.pc| ==> (Critical(s.pc[a]) <==> s.owner == Some(a)) && s.pc[a] != Fault)
  }

  ghost predicate StackInv(s: State)
    requires Counts(s)
  {
    && Chain(s.next, Address(s.word), Rev(Stack(s)))
    && (forall a :: 0 <= a < |s.pc| && s.pc[a].TryPush? ==>
          s.pc[a].seen != Unlocked && |s.next| == |s.pc| && s.next[a] == Address(s.pc[a].seen))
  }

  /** What the holder's private list looks like at each of its program points. */
  ghost predicate PrivateAt(s: State, p: PC)
    requires Counts(s)
  {
    var l := Private(s);
    match p
    case Exchange1 => s.head == None && l == []
    case CasUnlock => s.head == None && l == []
    case Exchange2 => s.head == None && l == [] && s.word.Top?
    case Reverse(current, prev) =>
      && s.head == None && l != [] && s.turned <= |l|
      && Chain(s.next, current, Rev(l[..|l| - s.turned]))
      && Chain(s.next, prev, l[|l| - s.turned..])
    case CheckHead => l != [] && Chain(s.next, s.head, l)
    case Pop => l != [] && Chain(s.next, s.head, l)
    case Grant(n) => l != [] && n == l[0] && Chain(s.next, s.head, l[1..])
    case _ => Chain(s.next, s.head, l)
  }

  ghost predicate PrivateInv(s: State)
    requires Counts(s)
  {
    if s.owner == None then s.head == None && Private(s) == []
    else s.owner.value < |s.pc| ==> PrivateAt(s, s.pc[s.owner.value])
  }

  ghost predicate Inv(s: State) {
    Counts(s) && QueueInv(s) && OwnerInv(s) && StackInv(s) && PrivateInv(s)
  }

  // --- Chains ---------------------------------------------------------------------------

  lemma RevPush(list: seq<nat>, a: nat)
    ensures Rev(list + [a])[0] == a && Rev(list + [a])[1..] == Rev(list)
  {
  }

  lemma RevMembers(list: seq<nat>)
    ensures forall n :: n in Rev(list) <==> n in list
  {
    forall n | n in list ensures n in Rev(list) {
      var i :| 0 <= i < |list| && list[i] == n;
      assert Rev(list)[|list| - 1 - i] == n;
    }
  }

  // --- Every step keeps the invariant ------------------------------------------------------

  lemma InitialInv(n: nat)
    ensures Inv(Initial(n))
  {
  }

  lemma PrivateKept(s: State, s': State, p: PC)
    requires Counts(s) && Counts(s') && PrivateAt(s, p)
    requires s'.head == s.head && s'.turned == s.turned && Private(s') == Private(s)
    requires p.Exchange2? ==> s'.word.Top?
    requires |s'.next| == |s.next| && forall n :: n in Private(s) && n < |s.next| ==> s'.next[n] == s.next[n]
    ensures PrivateAt(s', p)
  {
    hide Chain, Rev;
    var l := Private(s);
    match p
    case Exchange1 =>
    case CasUnlock =>
    case Exchange2 =>
    case Reverse(current, prev) =>
      RevMembers(l[..|l| - s.turned]);
      ChainKept(s.next, s'.next, current, Rev(l[..|l| - s.turned]));
      ChainKept(s.next, s'.next, prev, l[|l| - s.turned..]);
    case Grant(n) => ChainKept(s.next, s'.next, s.head, l[1..]);
    case _ => ChainKept(s.next, s'.next, s.head, l);
  }

  /** An agent that neither holds the lock nor waits moves its program counter only. */
  lemma OutsiderMove(s: State, a: nat, p: PC)
    requires Inv(s) && a < |s.pc| && !Critical(s.pc[a]) && s.pc[a] != Waiting
    requires !Critical(p) && p != Waiting && p != Fault && !p.TryPush?
    ensures Inv(s.(pc := s.pc[a := p]))
  {
    hide Chain;
    var s' := s.(pc := s.pc[a := p]);
    if s.owner.Some? { PrivateKept(s, s', s.pc[s.owner.value]); }
  }

  /** The holder moves to another of its program points for which the private list is right. */
  lemma HolderMove(s: State, a: nat, p: PC)
    requires Inv(s) && a < |s.pc| && Critical(s.pc[a]) && Critical(p) && PrivateAt(s, p)
    ensures Inv(s.(pc := s.pc[a := p]))
  {
    hide Chain;
    var s' := s.(pc := s.pc[a := p]);
    PrivateKept(s, s', p);
  }

  /** Writing the link of an awaiter that is not yet published disturbs no list. */
  lemma PreparePush(s: State, a: nat)
    requires Inv(s) && a < |s.pc| && s.pc[a].Decide? && s.pc[a].seen != Unlocked
    ensures Inv(Step(s, a, true))
  {
    hide Chain;
    var s' := Step(s, a, true);
    RevMembers(Stack(s));
    ChainKept(s.next, s'.next, Address(s.word), Rev(Stack(s)));
    if s.owner.Some? { PrivateKept(s, s', s.pc[s.owner.value]); }
  }

  lemma Acquire(s: State, a: nat)
    requires Inv(s) && a < |s.pc| && s.pc[a] == TryAcquire && s.word == Unlocked
    ensures Inv(Step(s, a, true)) && Queue(s) == []
  {
    var s' := Step(s, a, true);
    assert Rev(Stack(s)) == [];
    assert |Stack(s)| == 0;
    assert Private(s') == Private(s) == [] && Stack(s') == Stack(s);
  }

  /** A successful push, whatever happened since the word was read: the new word heads the old
      chain, even if the same address was popped and pushed again in between. */
  lemma Push(s: State, a: nat)
    requires Inv(s) && a < |s.pc| && s.pc[a].TryPush? && s.word == s.pc[a].seen
    ensures Inv(Step(s, a, true))
    ensures Queue(Step(s, a, true)) == Queue(s) + [a]
    ensures Chain(Step(s, a, true).next, Some(a), [a] + Rev(Stack(s)))
  {
    hide Chain;
    var s' := Step(s, a, true);
    assert s'.pushed[|s.granted|..] == Queue(s) + [a];
    assert Stack(s') == Stack(s) + [a];
    RevPush(Stack(s), a);
    assert Rev(Stack(s')) == [a] + Rev(Stack(s));
    assert Private(s') == Private(s);
    ChainCons(s.next, a, Rev(Stack(s)));
    PrivateKept(s, s', s.pc[s.owner.value]);
  }

  /** Either exchange that finds waiters takes the whole stack; the private list was empty. */
  lemma Take(s: State, a: nat)
    requires Inv(s) && a < |s.pc| && (s.pc[a] == Exchange1 || s.pc[a] == Exchange2) && s.word != LockedNoWaiters
    ensures Inv(TakeAll(s, a))
    ensures Private(s) == [] && Stack(s) != []
    ensures Private(TakeAll(s, a)) == Stack(s) && Stack(TakeAll(s, a)) == []
  {
    hide Chain;
    var s' := TakeAll(s, a);
    assert Private(s') == Stack(s) && Stack(s') == [];
    assert s.word.Top?;
    StackNotEmpty(s);
    var l := Private(s');
    assert l[..|l| - 0] == l && l[|l| - 0..] == [];
    assert Rev(Stack(s')) == [];
    EmptyChain(s.next);
  }

  lemma StackNotEmpty(s: State)
    requires Counts(s) && StackInv(s) && s.word.Top?
    ensures Stack(s) != []
  {
    assert |Rev(Stack(s))| == |Stack(s)|;
  }

  /** Nobody waits when the holder's CAS gives the lock back. */
  lemma Release(s: State, a: nat)
    requires Inv(s) && a < |s.pc| && s.pc[a] == CasUnlock && s.word == LockedNoWaiters
    ensures Inv(Step(s, a, true)) && Queue(s) == []
  {
    var s' := Step(s, a, true);
    assert |Rev(Stack(s))| == |Stack(s)|;
    assert Queue(s) == [];
    assert Private(s') == Private(s) && Stack(s') == Stack(s);
  }

  lemma LostRelease(s: State, a: nat)
    requires Inv(s) && a < |s.pc| && s.pc[a] == CasUnlock && s.word != LockedNoWaiters
    ensures Inv(Step(s, a, true))
  {
    HolderMove(s, a, Exchange2);
  }

  /** One round of the reversal loop turns one link: the list from `prev` now holds one more of the
      private waiters, in order of their pushes, and the list from `current` one less. */
  lemma Turn(s: State, a: nat)
    requires Inv(s) && a < |s.pc| && s.pc[a].Reverse? && s.pc[a].current.Some?
    ensures var s' := Step(s, a, true);
            && Inv(s') && s.turned < |Private(s)| && Private(s') == Private(s)
            && s'.pc[a].Reverse? && s'.turned == s.turned + 1
            && Chain(s'.next, s'.pc[a].prev, Private(s)[|Private(s)| - s'.turned..])
            && Chain(s'.next, s'.pc[a].current, Rev(Private(s)[..|Private(s)| - s'.turned]))
  {
    hide Step, Distinct, StackInv, PrivateAt, Chain, Rev;
    TurnLists(s, a);
    TurnStep(s, a);
    var s' := Step(s, a, true);
    assert Queue(s') == Queue(s);
  }

  lemma TurnStep(s: State, a: nat)
    requires a < |s.pc| == |s.next| && s.pc[a].Reverse? && s.pc[a].current.Some?
    requires s.pc[a].current.value < |s.next|
    ensures var s' := Step(s, a, true);
            && var n := s.pc[a].current.value;
            && s' == s.(pc := s.pc[a := Reverse(s.next[n], Some(n))], next := s.next[n := s.pc[a].prev],
                        turned := s.turned + 1)
  {
  }

  /** The waiter whose link is turned: the last of the private waiters not yet turned. */
  lemma NextToTurn(s: State, a: nat)
    requires Inv(s) && a < |s.pc| && s.pc[a].Reverse? && s.pc[a].current.Some?
    ensures var l, n := Private(s), s.pc[a].current.value;
            var k := |l| - s.turned;
            && 0 < k <= |l| && n == l[k - 1] && n < |s.next| && s.pc[n] == Waiting
            && n !in l[..k - 1] && n !in l[k..] && n !in Stack(s)
            && Chain(s.next, s.next[n], Rev(l[..k])[1..]) && Chain(s.next, s.pc[a].prev, l[k..])
  {
    hide Chain, Distinct, Rev, StackInv;
    var l, k := Private(s), |Private(s)| - s.turned;
    ChainHead(s.next, s.pc[a].current, Rev(l[..k]));
    LastTurned(l, k);
    ApartFromQueue(s, k - 1);
    PrivateWaits(s, k - 1);
  }

  /** The links as the round leaves them. */
  lemma TurnLists(s: State, a: nat)
    requires Inv(s) && a < |s.pc| && s.pc[a].Reverse? && s.pc[a].current.Some?
    ensures var s' := Step(s, a, true);
            && s.turned < |Private(s)|
            && s.pc[a].current.value < |s.next|
            && Counts(s') && s'.pc[a].Reverse?
            && StackInv(s') && PrivateAt(s', s'.pc[a])
            && s'.turned == s.turned + 1
            && Chain(s'.next, s'.pc[a].prev, Private(s)[|Private(s)| - s'.turned..])
            && Chain(s'.next, s'.pc[a].current, Rev(Private(s)[..|Private(s)| - s'.turned]))
  {
    hide Chain, Rev, Step, QueueInv;
    var l, k := Private(s), |Private(s)| - s.turned;
    var n := s.pc[a].current.value;
    var s' := Step(s, a, true);
    NextToTurn(s, a);
    TurnStep(s, a);
    TurnLink(s.next, n, s.pc[a].prev, l, k);
    RevMembers(Stack(s));
    ChainKept(s.next, s'.next, Address(s.word), Rev(Stack(s)));
    assert Private(s') == l && Stack(s') == Stack(s);
  }

  lemma LastTurned(l: seq<nat>, k: nat)
    requires k <= |l|
    ensures |Rev(l[..k])| == k && (k > 0 ==> Rev(l[..k])[0] == l[k - 1])
  {
  }

  /** A waiter occurs only once in the queue. */
  lemma ApartFromQueue(s: State, i: nat)
    requires Counts(s) && Distinct(Queue(s)) && i < |Private(s)|
    ensures Queue(s)[i] == Private(s)[i]
    ensures Private(s)[i] !in Private(s)[..i] && Private(s)[i] !in Private(s)[i + 1..]
    ensures Private(s)[i] !in Stack(s)
  {
    var q, l := Queue(s), Private(s);
    assert forall j :: 0 <= j < |l| ==> l[j] == q[j];
    assert forall j :: 0 <= j < |Stack(s)| ==> Stack(s)[j] == q[|l| + j];
  }

  lemma TurnLink(next: seq<Option<nat>>, n: nat, prev: Option<nat>, l: seq<nat>, k: nat)
    requires 0 < k <= |l| && n == l[k - 1] && n < |next|
    requires n !in l[..k - 1] && n !in l[k..]
    requires Chain(next, next[n], Rev(l[..k])[1..]) && Chain(next, prev, l[k..])
    ensures Chain(next[n := prev], next[n], Rev(l[..k - 1]))
    ensures Chain(next[n := prev], Some(n), l[k - 1..])
  {
    hide Chain;
    var next' := next[n := prev];
    assert Rev(l[..k])[1..] == Rev(l[..k - 1]);
    assert l[k - 1..] == [n] + l[k..];
    RevMembers(l[..k - 1]);
    ChainKept(next, next', next[n], Rev(l[..k - 1]));
    ChainKept(next, next', prev, l[k..]);
    ChainCons(next', n, l[k..]);
  }

  lemma Turned(s: State, a: nat)
    requires Inv(s) && a < |s.pc| && s.pc[a].Reverse? && s.pc[a].current == None
    ensures Inv(Step(s, a, true))
  {
    var l, k := Private(s), |Private(s)| - s.turned;
    var s' := Step(s, a, true);
    assert |Rev(l[..k])| == k;
    assert l[k..] == l;
    assert Private(s') == l && Stack(s') == Stack(s);
  }

  lemma HeadPresent(s: State, a: nat)
    requires Inv(s) && a < |s.pc| && (s.pc[a] == CheckHead || s.pc[a] == Pop)
    ensures s.head.Some? && s.head.value < |s.next| && s.head.value == Private(s)[0]
  {
  }

  lemma PopHead(s: State, a: nat)
    requires Inv(s) && a < |s.pc| && s.pc[a] == Pop
    ensures Inv(Step(s, a, true))
  {
    hide Chain;
    HeadPresent(s, a);
    ChainHead(s.next, s.head, Private(s));
    var s' := Step(s, a, true);
    assert Private(s') == Private(s) && Stack(s') == Stack(s);
  }

  /** The hand-off: the lock passes to the longest waiting agent, and only to it. */
  lemma HandOff(s: State, a: nat)
    requires Inv(s) && a < |s.pc| && s.pc[a].Grant?
    ensures Inv(Step(s, a, true))
    ensures Queue(s) != [] && s.pc[a].next == Queue(s)[0] && Queue(Step(s, a, true)) == Queue(s)[1..]
  {
    hide Chain;
    var s' := Step(s, a, true);
    var n := s.pc[a].next;
    assert n == Private(s)[0] == Queue(s)[0];
    assert n in Queue(s) && n != a;
    assert s'.granted == s'.pushed[..|s'.granted|];
    assert Queue(s') == Queue(s)[1..];
    assert Private(s') == Private(s)[1..];
    assert Stack(s') == Stack(s);
    HandOffQueue(s, a);
    PrivateKept(s, s.(pc := s'.pc), s.pc[a]);
  }

  lemma HandOffQueue(s: State, a: nat)
    requires Counts(s) && QueueInv(s) && a < |s.pc| && s.pc[a].Grant? && s.taken > |s.granted|
    requires Queue(s) != [] && s.pc[a].next == Queue(s)[0]
    requires Counts(Step(s, a, true)) && Queue(Step(s, a, true)) == Queue(s)[1..]
    ensures QueueInv(Step(s, a, true))
  {
    var s' := Step(s, a, true);
    var n, q := s.pc[a].next, Queue(s);
    forall x | x in Queue(s') ensures x < |s'.pc| && s'.pc[x] == Waiting {
      var i :| 0 <= i < |q[1..]| && q[1..][i] == x;
      assert x == q[i + 1] && x != n && x in q;
    }
    forall b | 0 <= b < |s'.pc| && s'.pc[b] == Waiting ensures b in Queue(s') {
      assert b != n && s.pc[b] == Waiting && b in q;
      var i :| 0 <= i < |q| && q[i] == b;
      assert q[1..][i - 1] == b;
    }
  }

  /** Every step of every agent keeps the invariant. */
  lemma StepInv(s: State, a: nat, lucky: bool)
    requires Inv(s) && a < |s.pc|
    ensures Inv(Step(s, a, lucky))
  {
    hide QueueInv, StackInv, Chain;
    match s.pc[a]
    case Idle => OutsiderMove(s, a, Load);
    case Load => OutsiderMove(s, a, Decide(s.word));
    case Decide(seen) =>
      if seen == Unlocked { OutsiderMove(s, a, TryAcquire); } else { PreparePush(s, a); }
    case TryAcquire =>
      if s.word == Unlocked && lucky { Acquire(s, a); } else { OutsiderMove(s, a, Decide(s.word)); }
    case TryPush(seen) =>
      if s.word == seen && lucky { Push(s, a); } else { OutsiderMove(s, a, Decide(s.word)); }
    case Waiting =>
    case Holding => HolderMove(s, a, CheckList);
    case CheckList => Checked(s, a);
    case Exchange1 =>
      if s.word == LockedNoWaiters { HolderMove(s, a, CasUnlock); } else { Take(s, a); }
    case CasUnlock =>
      if s.word == LockedNoWaiters { Release(s, a); } else { LostRelease(s, a); }
    case Exchange2 => Take(s, a);
    case Reverse(current, prev) =>
      if current == None { Turned(s, a); } else { Turn(s, a); }
    case CheckHead =>
      HeadPresent(s, a);
      HolderMove(s, a, Pop);
    case Pop => PopHead(s, a);
    case Grant(n) => HandOff(s, a);
  }

  lemma Checked(s: State, a: nat)
    requires Inv(s) && a < |s.pc| && s.pc[a] == CheckList
    ensures Inv(Step(s, a, true))
  {
    if s.head == None { HolderMove(s, a, Exchange1); } else { HolderMove(s, a, Pop); }
  }

  // --- What holds over every run -----------------------------------------------------------

  lemma {:induction false} RunInv(n: nat, moves: seq<Move>)
    requires Legal(n, moves)
    ensures Inv(Run(n, moves))
    decreases |moves|
  {
    hide Inv, Step;
    if moves == [] {
      InitialInv(n);
    } else {
      var m := moves[|moves| - 1];
      var before := moves[..|moves| - 1];
      assert forall i :: 0 <= i < |before| ==> before[i] == moves[i];
      RunInv(n, before);
      StepInv(Run(n, before), m.agent, m.lucky);
    }
  }

  /** The awaiter whose link or coroutine the step from this program point reads. */
  function Followed(s: State, p: PC): Option<nat> {
    match p
    case Reverse(current, _) => current
    case Pop => s.head
    case Grant(n) => Some(n)
    case _ => None
  }

  lemma FollowedIsWaiting(s: State, a: nat)
    requires Inv(s) && a < |s.pc| && Followed(s, s.pc[a]).Some?
    ensures var n := Followed(s, s.pc[a]).value; n < |s.pc| && s.pc[n] == Waiting
  {
    hide Chain, StackInv, Rev, Distinct;
    assert s.owner == Some(a) && PrivateAt(s, s.pc[a]);
    if s.pc[a].Reverse? {
      NextToTurn(s, a);
    } else if s.pc[a].Pop? {
      HeadPresent(s, a);
      PrivateWaits(s, 0);
    } else {
      PrivateWaits(s, 0);
    }
  }

  lemma PrivateWaits(s: State, i: nat)
    requires Counts(s) && QueueInv(s) && i < |Private(s)|
    ensures Private(s)[i] < |s.pc| && s.pc[Private(s)[i]] == Waiting
  {
    assert Private(s)[i] == Queue(s)[i];
    assert Queue(s)[i] in Queue(s);
  }

  /** At most one agent holds the lock or is inside `unlock`, so the private list has a single
      accessor; and every awaiter that is followed is still suspended, so its address has not been
      reused and it exists. */
  lemma MutualExclusion(n: nat, moves: seq<Move>, a: nat, b: nat)
    requires Legal(n, moves) && a < n && b < n
    ensures Critical(Run(n, moves).pc[a]) && Critical(Run(n, moves).pc[b]) ==> a == b
    ensures Run(n, moves).pc[a] != Fault
    ensures var s := Run(n, moves);
            var at := Followed(s, s.pc[a]);
            at.Some? ==> at.value < n && s.pc[at.value] == Waiting
  {
    hide Step, Run, QueueInv, StackInv, PrivateInv;
    RunInv(n, moves);
    if Followed(Run(n, moves), Run(n, moves).pc[a]).Some? { FollowedIsWaiting(Run(n, moves), a); }
  }

  /** Grants happen in the order of the pushes, none lost and none repeated: what was granted is
      an initial part of what was pushed, the rest are exactly the suspended agents, each once.
      The word is 0 only when nobody waits, and whoever waits, somebody is in charge. */
  lemma FirstComeFirstServed(n: nat, moves: seq<Move>)
    requires Legal(n, moves)
    ensures var s := Run(n, moves);
            && |s.granted| <= |s.pushed| && s.pushed == s.granted + Queue(s)
            && Distinct(Queue(s))
            && (forall a :: 0 <= a < n ==> (s.pc[a] == Waiting <==> a in Queue(s)))
            && (s.word == Unlocked ==> Queue(s) == [])
            && (Queue(s) != [] ==> exists a :: 0 <= a < n && Critical(s.pc[a]))
  {
    hide Step, Run, StackInv, Chain;
    RunInv(n, moves);
    var s := Run(n, moves);
    if s.word == Unlocked {
      IdleWord(s);
    } else {
      assert Critical(s.pc[s.owner.value]);
    }
  }

  lemma IdleWord(s: State)
    requires Inv(s) && s.word == Unlocked
    ensures Queue(s) == []
  {
    assert |Rev(Stack(s))| == |Stack(s)|;
  }

  /** What one step may do to the order of service: append the pusher, serve the head of the
      queue, or nothing.  An agent gets the lock without queueing only when nobody waits. */
  lemma StepServes(s: State, a: nat, lucky: bool)
    requires Inv(s) && a < |s.pc|
    ensures var s' := Step(s, a, lucky);
            && (s'.pushed == s.pushed || s'.pushed == s.pushed + [a])
            && (s'.granted == s.granted || (Queue(s) != [] && s'.granted == s.granted + [Queue(s)[0]]))
            && (s.owner != s'.owner && s'.owner.Some? ==>
                  (Queue(s) == [] && s'.owner == Some(a)) || (Queue(s) != [] && s'.owner == Some(Queue(s)[0])))
  {
    hide QueueInv, StackInv, Chain, Rev;
    if s.pc[a].Grant? {
      HandOff(s, a);
    } else if s.pc[a] == TryAcquire && s.word == Unlocked {
      Acquire(s, a);
    }
  }

  // --- `unlock` finishes -------------------------------------------------------------------

  /** Program points of `unlock` in the order they can be reached. */
  function Phase(p: PC): nat {
    match p
    case CheckList => 8
    case Exchange1 => 7
    case CasUnlock => 6
    case Exchange2 => 5
    case Reverse(_, _) => 4
    case CheckHead => 3
    case Pop => 2
    case Grant(_) => 1
    case _ => 0
  }

  /** Links still to be turned round. */
  function Remaining(s: State): int {
    s.taken - |s.granted| - s.turned
  }

  /** Every step of an agent inside `unlock` takes it to a later program point or shortens the
      reversal; steps of the others leave both where they were.  Hence `unlock` never retries:
      it finishes within its own steps, whatever the others do. */
  lemma UnlockProgress(s: State, o: nat, a: nat, lucky: bool)
    requires Inv(s) && o < |s.pc| && a < |s.pc| && Phase(s.pc[o]) > 0
    ensures var s' := Step(s, a, lucky);
            if a == o then
              Phase(s'.pc[o]) < Phase(s.pc[o])
              || (s.pc[o].Reverse? && s'.pc[o].Reverse? && 0 <= Remaining(s') < Remaining(s))
            else s'.pc[o] == s.pc[o] && Remaining(s') == Remaining(s)
  {
    if a == o { OwnProgress(s, o, lucky); } else { OthersDoNotDisturb(s, o, a, lucky); }
  }

  lemma OwnProgress(s: State, o: nat, lucky: bool)
    requires Inv(s) && o < |s.pc| == |s.next| && Phase(s.pc[o]) > 0
    ensures var s' := Step(s, o, lucky);
            Phase(s'.pc[o]) < Phase(s.pc[o])
            || (s.pc[o].Reverse? && s'.pc[o].Reverse? && 0 <= Remaining(s') < Remaining(s))
  {
    if s.pc[o].Reverse? {
      TurnProgress(s, o, lucky);
    } else {
      hide *;
      LaterPoint(s, o, lucky);
    }
  }

  lemma LaterPoint(s: State, o: nat, lucky: bool)
    requires o < |s.pc| == |s.next| && Phase(s.pc[o]) > 0 && !s.pc[o].Reverse?
    ensures Phase(Step(s, o, lucky).pc[o]) < Phase(s.pc[o])
  {
  }

  lemma ReverseStep(s: State, o: nat, lucky: bool)
    requires o < |s.pc| == |s.next| && s.pc[o].Reverse?
    ensures var s' := Step(s, o, lucky);
            && s' == Step(s, o, true)
            && (s.pc[o].current == None ==> s'.pc[o] == CheckHead)
            && (s.pc[o].current.Some? && s'.pc[o].Reverse? ==> Remaining(s') == Remaining(s) - 1)
  {
  }

  lemma TurnProgress(s: State, o: nat, lucky: bool)
    requires Inv(s) && o < |s.pc| == |s.next| && s.pc[o].Reverse?
    ensures var s' := Step(s, o, lucky);
            Phase(s'.pc[o]) < Phase(s.pc[o]) || (s'.pc[o].Reverse? && 0 <= Remaining(s') < Remaining(s))
  {
    hide Step, QueueInv, StackInv, PrivateInv, OwnerInv;
    ReverseStep(s, o, lucky);
    if s.pc[o].current.Some? { Turn(s, o); }
  }

  /** Only one agent is inside `unlock`, so the others' steps are not steps of `unlock`. */
  lemma OthersDoNotDisturb(s: State, o: nat, a: nat, lucky: bool)
    requires Inv(s) && o < |s.pc| && a < |s.pc| && a != o && Phase(s.pc[o]) > 0
    ensures var s' := Step(s, a, lucky); s'.pc[o] == s.pc[o] && Remaining(s') == Remaining(s)
  {
    hide QueueInv, StackInv, PrivateInv;
    assert Critical(s.pc[o]) && !Critical(s.pc[a]);
    hide Inv, OwnerInv;
  }

  // --- `lock` and `unlock` complete --------------------------------------------------------

  /** `k` lucky steps of agent `a`, with nobody else moving. */
  function Alone(s: State, a: nat, k: nat): (s': State)
    requires a < |s.pc| == |s.next|
    ensures |s'.pc| == |s'.next| == |s.pc|
    decreases k
  {
    if k == 0 then s else Alone(Step(s, a, true), a, k - 1)
  }

  /** How a call of `lock` in state `s` ends: with the lock if it was free, and otherwise as the last
      waiter. */
  ghost predicate Locked(s: State, s': State, a: nat)
    requires a < |s'.pc|
  {
    if s.word == Unlocked then
      s'.pc[a] == Holding && s'.owner == Some(a) && s'.word == LockedNoWaiters
      && s'.pushed == s.pushed && s'.granted == s.granted
    else
      s'.pc[a] == Waiting && s'.owner == s.owner && s'.word == Top(a)
      && s'.pushed == s.pushed + [a] && s'.granted == s.granted
  }

  lemma LockFromLoad(s: State, a: nat)
    requires Inv(s) && a < |s.pc| && s.pc[a] == Load
    ensures Locked(s, Alone(s, a, 3), a)
  {
    hide QueueInv, StackInv, PrivateInv;
    ThreeSteps(s, a);
  }

  /** Undisturbed, `lock` completes in four steps, the call included. */
  lemma LockCompletes(s: State, a: nat)
    requires Inv(s) && a < |s.pc| && s.pc[a] == Idle
    ensures Locked(s, Alone(s, a, 4), a)
  {
    LockCalled(s, a);
    StepInv(s, a, true);
    AloneUnfold(s, a);
    LockFromLoad(Step(s, a, true), a);
    hide Inv, Step, Alone;
  }

  lemma LockCalled(s: State, a: nat)
    requires a < |s.pc| == |s.next| && s.pc[a] == Idle
    ensures var s' := Step(s, a, true); s' == s.(pc := s'.pc) && s'.pc[a] == Load
  {
  }

  lemma ThreeSteps(s: State, a: nat)
    requires a < |s.pc| == |s.next|
    ensures Alone(s, a, 3) == Step(Step(Step(s, a, true), a, true), a, true)
  {
    hide Step;
    assert Alone(s, a, 3) == Alone(Step(s, a, true), a, 2);
    assert Alone(Step(s, a, true), a, 2) == Alone(Step(Step(s, a, true), a, true), a, 1);
  }

  /** The word that the compare-and-swap of a locker expects. */
  function Expected(p: PC): Option<Word> {
    match p
    case TryAcquire => Some(Unlocked)
    case TryPush(seen) => Some(seen)
    case _ => None
  }

  /** A locker's compare-and-swap succeeds exactly when it is lucky and the word is still the one that
      was read; otherwise it reads the word again and nothing else happens.  So whenever a locker
      retries without bad luck, somebody else has changed the word meanwhile. */
  lemma CasOutcome(s: State, a: nat, lucky: bool)
    requires Inv(s) && a < |s.pc| && Expected(s.pc[a]).Some?
    ensures var s' := Step(s, a, lucky);
            if lucky && s.word == Expected(s.pc[a]).value then
              s'.word != s.word && (s'.owner == Some(a) || s'.pushed == s.pushed + [a])
            else
              s' == s.(pc := s.pc[a := Decide(s.word)])
  {
    hide QueueInv, PrivateInv, Chain;
    if s.pc[a].TryPush? { NotOnTop(s, a); }
  }

  /** The awaiter on top of the stack is suspended, so an agent that is pushing is not there yet. */
  lemma NotOnTop(s: State, a: nat)
    requires Inv(s) && a < |s.pc| && s.pc[a].TryPush?
    ensures s.word != Top(a)
  {
    if s.word.Top? { TopWaits(s); }
  }

  lemma TopWaits(s: State)
    requires Inv(s) && s.word.Top?
    ensures s.word.awaiter < |s.pc| && s.pc[s.word.awaiter] == Waiting
  {
    StackNotEmpty(s);
    var last := Stack(s)[|Stack(s)| - 1];
    ChainHead(s.next, Address(s.word), Rev(Stack(s)));
    assert Rev(Stack(s))[0] == last;
    assert Queue(s)[|Queue(s)| - 1] == last && last in Queue(s);
  }

  /** What `unlock` called in state `s` leads to: the lock is free when nobody waits, and otherwise it
      belongs to the longest waiting agent. */
  ghost predicate Released(s: State, s': State, o: nat)
    requires Counts(s) && o < |s'.pc|
  {
    s'.pc[o] == Idle &&
    if Queue(s) == [] then
      s'.word == Unlocked && s'.owner == None && s'.granted == s.granted
    else
      && s'.granted == s.granted + [Queue(s)[0]] && s'.owner == Some(Queue(s)[0])
      && Queue(s)[0] < |s'.pc| && s'.pc[Queue(s)[0]] == Holding
  }

  /** A step inside `unlock` finishes it or leaves the order of service alone. */
  lemma UnlockStep(s: State, o: nat)
    requires Inv(s) && o < |s.pc| && Phase(s.pc[o]) > 0
    ensures var s' := Step(s, o, true);
            && Inv(s')
            && (Released(s, s', o)
                || (Phase(s'.pc[o]) > 0 && s'.pushed == s.pushed && s'.granted == s.granted))
  {
    StepInv(s, o, true);
    if s.pc[o] == CasUnlock && s.word == LockedNoWaiters {
      Release(s, o);
    } else if s.pc[o].Grant? {
      HandOff(s, o);
      FollowedIsWaiting(s, o);
    } else {
      HeadAtCheck(s, o);
      hide QueueInv, StackInv, PrivateInv;
      KeepsOrder(s, o);
    }
  }

  lemma HeadAtCheck(s: State, o: nat)
    requires Inv(s) && o < |s.pc| && Phase(s.pc[o]) > 0
    ensures s.pc[o] == CheckHead ==> s.head.Some?
    ensures Step(s, o, true).pc[o] != Fault
  {
    if s.pc[o] == CheckHead { HeadPresent(s, o); }
    StepInv(s, o, true);
    hide QueueInv, StackInv, PrivateInv, Step;
  }

  lemma KeepsOrder(s: State, o: nat)
    requires o < |s.pc| == |s.next| && Phase(s.pc[o]) > 0 && !s.pc[o].Grant?
    requires s.pc[o] == CasUnlock ==> s.word != LockedNoWaiters
    requires s.pc[o] == CheckHead ==> s.head.Some?
    requires Step(s, o, true).pc[o] != Fault
    ensures var s' := Step(s, o, true);
            Phase(s'.pc[o]) > 0 && s'.pushed == s.pushed && s'.granted == s.granted
  {
  }

  /** Undisturbed, `unlock` ends after some number of steps, with the lock released. */
  lemma {:induction false} FinishUnlock(s: State, o: nat) returns (k: nat)
    requires Inv(s) && o < |s.pc| && Phase(s.pc[o]) > 0
    ensures Released(s, Alone(s, o, k), o)
    decreases Phase(s.pc[o]), if s.pc[o].Reverse? then Remaining(s) else 0
  {
    CountsOf(s);
    hide Inv, Step, Released, Alone;
    var s' := Step(s, o, true);
    UnlockStep(s, o);
    AloneUnfold(s, o);
    if Released(s, s', o) {
      k := 1;
    } else {
      UnlockProgress(s, o, o, true);
      CountsOf(s');
      if s.pc[o].Reverse? { RemainingNonNegative(s, o); }
      k := FinishUnlock(s', o);
      SameRelease(s, s', Alone(s', o, k), o);
      k := k + 1;
    }
  }

  lemma CountsOf(s: State)
    requires Inv(s)
    ensures Counts(s)
  {
  }

  lemma RemainingNonNegative(s: State, o: nat)
    requires Inv(s) && o < |s.pc| && s.pc[o].Reverse?
    ensures Remaining(s) >= 0
  {
    hide Chain, Rev;
    assert s.owner == Some(o);
  }

  lemma AloneUnfold(s: State, o: nat)
    requires o < |s.pc| == |s.next|
    ensures forall k: nat :: Alone(s, o, k + 1) == Alone(Step(s, o, true), o, k)
    ensures Alone(s, o, 4) == Alone(Step(s, o, true), o, 3)
    ensures Alone(s, o, 1) == Step(s, o, true)
  {
    hide Step;
  }

  lemma SameRelease(s: State, s1: State, s': State, o: nat)
    requires Counts(s) && Counts(s1) && s1.pushed == s.pushed && s1.granted == s.granted && o < |s'.pc|
    requires Released(s1, s', o)
    ensures Released(s, s', o)
  {
  }

  /** The whole of `unlock` by the holder, undisturbed. */
  lemma UnlockCompletes(s: State, o: nat) returns (k: nat)
    requires Inv(s) && o < |s.pc| && s.pc[o] == Holding
    ensures Released(s, Alone(s, o, k), o)
  {
    var s1 := Step(s, o, true);
    StepInv(s, o, true);
    k := FinishUnlock(s1, o);
    hide Inv, Released, Step, Alone;
    AloneUnfold(s, o);
    CountsOf(s);
    HoldingStep(s, o);
    SameRelease(s, s1, Alone(s1, o, k), o);
    k := k + 1;
  }

  lemma HoldingStep(s: State, o: nat)
    requires o < |s.pc| == |s.next| && s.pc[o] == Holding
    ensures var s1 := Step(s, o, true); s1.pushed == s.pushed && s1.granted == s.granted && s1.pc[o] == CheckList
  {
  }
}
