/**
 The one-shot event: any number of waiters and setters, interleaved at every load, exchange,
 lock operation and list operation.

 `registered`, `taken` and `resumes` are history: the waiters linked into the event's list, the
 waiters the winning setter has taken and not yet resumed, and how often each waiter was resumed.
 */
module Events {

  import opened Basics
  import opened Sums
  import opened Chains

  datatype Waiter =
    | Fresh                      // before await_ready
    | WantLock                   // await_ready saw no signal
    | Locked                     // inside await_suspend, about to load the signal
    | Unsignalled                // saw no signal, about to link itself
    | Seen                       // saw the signal, about to unlock and continue
    | Linked                     // linked itself, about to unlock
    | Suspended
    | Continued                  // went on without suspending
    | Resumed

  datatype Setter =
    | Start
    | Lost                       // somebody else had set the event
    | WantList                   // won; about to lock
    | HasLock                    // about to take the list
    | HasList(head: Option<nat>) // list taken, about to unlock
    | Draining(current: Option<nat>)
    | Resuming(waiter: nat, next: Option<nat>)
    | Finished

  datatype Owner = Nobody | ByWaiter(w: nat) | BySetter(t: nat)

  datatype State = State(
    signaled: bool,
    lock: Owner,
    head: Option<nat>,
    next: seq<Option<nat>>,
    waiters: seq<Waiter>,
    setters: seq<Setter>,
    winner: Option<nat>,
    registered: seq<nat>,
    taken: seq<nat>,
    resumes: seq<nat>)

  datatype Action = WaiterStep(w: nat) | SetterStep(t: nat)

  function Initial(waiters: nat, setters: nat): State {
    State(false, Nobody, None, seq(waiters, _ => None), seq(waiters, _ => Fresh), seq(setters, _ => Start),
          None, [], [], seq(waiters, _ => 0))
  }

  predicate Shape(s: State) { |s.next| == |s.resumes| == |s.waiters| }

  predicate Exists(s: State, a: Action) {
    match a
    case WaiterStep(w) => w < |s.waiters|
    case SetterStep(t) => t < |s.setters|
  }

  function WaiterNext(s: State, w: nat): State
    requires Shape(s) && w < |s.waiters|
  {
    match s.waiters[w]
    case Fresh => s.(waiters := s.waiters[w := if s.signaled then Continued else WantLock])
    case WantLock =>
      if s.lock == Nobody then s.(lock := ByWaiter(w), waiters := s.waiters[w := Locked]) else s
    case Locked => s.(waiters := s.waiters[w := if s.signaled then Seen else Unsignalled])
    case Unsignalled =>
      s.(next := s.next[w := s.head], head := Some(w), waiters := s.waiters[w := Linked],
         registered := [w] + s.registered)
    case Seen => s.(lock := Nobody, waiters := s.waiters[w := Continued])
    case Linked => s.(lock := Nobody, waiters := s.waiters[w := Suspended])
    case _ => s
  }

  function SetterNext(s: State, t: nat): State
    requires Shape(s) && t < |s.setters|
  {
    match s.setters[t]
    case Start =>
      if s.signaled then s.(setters := s.setters[t := Lost])
      else s.(signaled := true, winner := Some(t), setters := s.setters[t := WantList])
    case WantList =>
      if s.lock == Nobody then s.(lock := BySetter(t), setters := s.setters[t := HasLock]) else s
    case HasLock =>
      s.(head := None, setters := s.setters[t := HasList(s.head)], taken := s.registered, registered := [])
    case HasList(head) => s.(lock := Nobody, setters := s.setters[t := Draining(head)])
    case Draining(current) =>
      (match current
       case None => s.(setters := s.setters[t := Finished])
       case Some(n) =>
         if n < |s.next| then s.(setters := s.setters[t := Resuming(n, s.next[n])]) else s)
    case Resuming(n, next) =>
      if n < |s.waiters| && s.taken != []
      then s.(setters := s.setters[t := Draining(next)], waiters := s.waiters[n := Resumed],
              resumes := s.resumes[n := s.resumes[n] + 1], taken := s.taken[1..])
      else s
    case _ => s
  }

  function Next(s: State, a: Action): State
    requires Shape(s) && Exists(s, a)
  {
    match a
    case WaiterStep(w) => WaiterNext(s, w)
    case SetterStep(t) => SetterNext(s, t)
  }

  // --- The invariant ------------------------------------------------------------------------

  predicate Inside(x: Waiter) { x.Locked? || x.Unsignalled? || x.Seen? || x.Linked? }

  predicate Pending(x: Waiter) { x.Linked? || x.Suspended? }

  /** The winner has taken the list. */
  predicate Drained(s: State) {
    s.winner.Some? && s.winner.value < |s.setters| &&
    (var x := s.setters[s.winner.value]; x.HasList? || x.Draining? || x.Resuming? || x.Finished?)
  }

  ghost predicate LockInv(s: State) {
    && (forall w :: 0 <= w < |s.waiters| ==> (Inside(s.waiters[w]) <==> s.lock == ByWaiter(w)))
    && (forall t :: 0 <= t < |s.setters| ==>
          (s.setters[t].HasLock? || s.setters[t].HasList? <==> s.lock == BySetter(t)))
    && (s.lock.ByWaiter? ==> s.lock.w < |s.waiters|)
    && (s.lock.BySetter? ==> s.lock.t < |s.setters|)
  }

  ghost predicate WinnerInv(s: State) {
    && (s.signaled <==> s.winner.Some?)
    && (s.winner.Some? ==> s.winner.value < |s.setters|)
    && (forall t :: 0 <= t < |s.setters| ==>
          (s.setters[t].Start? || s.setters[t].Lost? <==> s.winner != Some(t)))
    && (forall t :: 0 <= t < |s.setters| && s.setters[t].Lost? ==> s.signaled)
    && (forall w :: 0 <= w < |s.waiters| ==>
          (s.waiters[w].Seen? || s.waiters[w].Continued? || s.waiters[w].Resumed? ==> s.signaled))
  }

  /** The pending waiters are exactly those in the list, each once. */
  ghost predicate PendingAre(list: seq<nat>, waiters: seq<Waiter>) {
    && Distinct(list)
    && (forall n :: n in list ==> n < |waiters| && Pending(waiters[n]))
    && (forall w :: 0 <= w < |waiters| && Pending(waiters[w]) ==> w in list)
  }

  ghost predicate ListInv(s: State)
    requires Shape(s)
  {
    && Chain(s.next, s.head, s.registered)
    && PendingAre(s.registered + s.taken, s.waiters)
    && (forall n :: n in s.taken ==> n < |s.waiters| && s.waiters[n] == Suspended)
    && (!Drained(s) ==> s.taken == [])
    && (Drained(s) ==> s.registered == [] && forall w :: 0 <= w < |s.waiters| ==> !s.waiters[w].Unsignalled?)
  }

  ghost predicate DrainInv(s: State)
    requires Shape(s)
  {
    Drained(s) ==>
      match s.setters[s.winner.value]
      case HasList(h) => Chain(s.next, h, s.taken)
      case Draining(c) => Chain(s.next, c, s.taken)
      case Resuming(n, next) => s.taken != [] && n == s.taken[0] && Chain(s.next, next, s.taken[1..])
      case _ => s.taken == []
  }

  ghost predicate CountInv(s: State)
    requires Shape(s)
  {
    forall w :: 0 <= w < |s.waiters| ==> s.resumes[w] == if s.waiters[w].Resumed? then 1 else 0
  }

  ghost predicate Inv(s: State) {
    Shape(s) && LockInv(s) && WinnerInv(s) && ListInv(s) && DrainInv(s) && CountInv(s)
  }

  lemma InitialInv(waiters: nat, setters: nat)
    ensures Inv(Initial(waiters, setters))
  {
  }

  // --- Every step keeps it --------------------------------------------------------------------

  /** A waiter links itself only while nobody has drained the list, since both happen under the
      lock and the drain comes after the signal. */
  lemma LinkInv(s: State, w: nat)
    requires Inv(s) && w < |s.waiters| && s.waiters[w].Unsignalled?
    ensures Inv(Next(s, WaiterStep(w))) && !Drained(s)
    ensures w !in s.registered && Chain(Next(s, WaiterStep(w)).next, Some(w), [w] + s.registered)
  {
    hide Chain;
    var s' := Next(s, WaiterStep(w));
    assert !Drained(s) && !Drained(s');
    ChainKept(s.next, s'.next, s.head, s.registered);
    ChainCons(s'.next, w, s.registered);
    assert s'.registered + s'.taken == [w] + (s.registered + s.taken);
  }

  lemma WaiterStepInv(s: State, w: nat)
    requires Inv(s) && w < |s.waiters|
    ensures Inv(Next(s, WaiterStep(w)))
  {
    hide Chain;
    if s.waiters[w].Unsignalled? {
      LinkInv(s, w);
    } else {
      WaiterOnly(s, w);
      var s' := Next(s, WaiterStep(w));
      hide ListInv;
      assert DrainInv(s') && CountInv(s');
      assert LockInv(s') && WinnerInv(s');
    }
  }

  /** Every other step of a waiter leaves the lists alone. */
  lemma WaiterOnly(s: State, w: nat)
    requires Inv(s) && w < |s.waiters| && !s.waiters[w].Unsignalled?
    ensures ListInv(Next(s, WaiterStep(w)))
  {
    hide Chain, LockInv, DrainInv, CountInv;
    var s' := Next(s, WaiterStep(w));
    assert s'.registered == s.registered && s'.taken == s.taken && s'.setters == s.setters;
    assert s'.waiters == s.waiters[w := s'.waiters[w]];
    assert Pending(s'.waiters[w]) <==> Pending(s.waiters[w]);
    if s.waiters[w].Locked? && !s.signaled { assert !Drained(s); }
  }

  lemma TakeListInv(s: State, t: nat)
    requires Inv(s) && t < |s.setters| && s.setters[t].HasLock?
    ensures Inv(Next(s, SetterStep(t)))
    ensures var s' := Next(s, SetterStep(t));
            && PendingAre(s.registered, s.waiters)
            && s'.setters[t].HasList? && Chain(s'.next, s'.setters[t].head, s.registered)
            && Chain(s'.next, s'.head, [])
  {
    hide Chain;
    var s' := Next(s, SetterStep(t));
    assert s.registered + s.taken == s.registered && s'.registered + s'.taken == s.registered;
    assert Drained(s') && s.winner == Some(t);
    forall w | 0 <= w < |s.waiters| ensures !Inside(s.waiters[w]) {}
    EmptyChain(s.next);
  }

  /** Each round of the drain resumes the first of the taken waiters, which is suspended, and goes
      on with the link it read before. */
  lemma ResumeInv(s: State, t: nat)
    requires Inv(s) && t < |s.setters| && s.setters[t].Resuming?
    ensures Inv(Next(s, SetterStep(t)))
    ensures var n, s' := s.setters[t].waiter, Next(s, SetterStep(t));
            && n < |s.waiters| && s.waiters[n] == Suspended && s'.resumes[n] == 1
            && s.taken != [] && n == s.taken[0]
            && s'.setters[t].Draining? && Chain(s'.next, s'.setters[t].current, s.taken[1..])
  {
    hide Chain;
    ResumesSuspended(s, t);
    ResumeLists(s, t);
    var s' := Next(s, SetterStep(t));
    hide ListInv;
    assert LockInv(s') && WinnerInv(s');
    assert DrainInv(s') && CountInv(s');
  }

  lemma ResumesSuspended(s: State, t: nat)
    requires Inv(s) && t < |s.setters| && s.setters[t].Resuming?
    ensures Drained(s) && s.winner == Some(t) && s.taken != []
    ensures var n := s.setters[t].waiter; n == s.taken[0] < |s.waiters| && s.waiters[n] == Suspended
  {
    hide Chain;
    assert s.winner == Some(t);
    assert s.taken[0] in s.taken;
  }

  lemma ResumeLists(s: State, t: nat)
    requires Inv(s) && t < |s.setters| && s.setters[t].Resuming?
    ensures ListInv(Next(s, SetterStep(t)))
  {
    ResumesSuspended(s, t);
    var s' := Next(s, SetterStep(t));
    assert s'.taken == s.taken[1..] && s'.registered == s.registered == [] && s'.head == s.head && s'.next == s.next;
    assert s'.waiters == s.waiters[s.taken[0] := Resumed];
    assert s.registered + s.taken == s.taken && s'.registered + s'.taken == s'.taken;
    assert Drained(s');
    PendingDrop(s.taken, s.waiters);
    RestOf(s.taken);
    hide Chain, LockInv, DrainInv, CountInv, PendingAre, Next, Distinct;
  }

  lemma PendingDrop(list: seq<nat>, waiters: seq<Waiter>)
    requires list != [] && PendingAre(list, waiters) && list[0] < |waiters|
    ensures PendingAre(list[1..], waiters[list[0] := Resumed]) && Distinct(list)
  {
    RestOf(list);
    hide Distinct;
  }

  lemma RestOf(list: seq<nat>)
    requires list != [] && Distinct(list)
    ensures Distinct(list[1..])
    ensures forall n :: n in list[1..] <==> n in list && n != list[0]
  {
    forall n | n in list && n != list[0] ensures n in list[1..] {
      var i :| 0 <= i < |list| && list[i] == n;
      assert list[1..][i - 1] == n;
    }
  }

  lemma SetterStepInv(s: State, t: nat)
    requires Inv(s) && t < |s.setters|
    ensures Inv(Next(s, SetterStep(t)))
  {
    hide Chain;
    match s.setters[t]
    case HasLock => TakeListInv(s, t);
    case Resuming(n, next) => ResumeInv(s, t);
    case Draining(c) => ChainHead(s.next, c, s.taken);
    case _ =>
  }

  predicate Runs(s: State, acts: seq<Action>) {
    forall i :: 0 <= i < |acts| ==> Exists(s, acts[i])
  }

  function After(s: State, acts: seq<Action>): (s': State)
    requires Shape(s) && Runs(s, acts)
    ensures Shape(s') && |s'.waiters| == |s.waiters| && |s'.setters| == |s.setters|
    decreases |acts|
  {
    if acts == [] then s else
    var s1 := Next(s, acts[0]);
    assert forall i :: 0 <= i < |acts[1..]| ==> Exists(s, acts[1..][i]);
    After(s1, acts[1..])
  }

  lemma StepInv(s: State, a: Action)
    requires Inv(s) && Exists(s, a)
    ensures Inv(Next(s, a))
  {
    hide Inv, Next;
    if a.WaiterStep? { WaiterStepInv(s, a.w); } else { SetterStepInv(s, a.t); }
  }

  lemma {:induction false} AfterInv(s: State, acts: seq<Action>)
    requires Inv(s) && Runs(s, acts)
    ensures Inv(After(s, acts))
    decreases |acts|
  {
    hide LockInv, WinnerInv, ListInv, DrainInv, CountInv, Next;
    if acts != [] {
      StepInv(s, acts[0]);
      assert forall i :: 0 <= i < |acts[1..]| ==> Exists(s, acts[1..][i]);
      SameParties(s, acts[0]);
      AfterInv(Next(s, acts[0]), acts[1..]);
    }
  }

  lemma SameParties(s: State, a: Action)
    requires Shape(s) && Exists(s, a)
    ensures |Next(s, a).waiters| == |s.waiters| && |Next(s, a).setters| == |s.setters|
  {
  }

  // --- What holds over every run ----------------------------------------------------------------

  /** No waiter is ever resumed twice, nor both resumed and let through; and only after a set. */
  lemma AtMostOnce(waiters: nat, setters: nat, acts: seq<Action>, w: nat)
    requires Runs(Initial(waiters, setters), acts) && w < waiters
    ensures var s := After(Initial(waiters, setters), acts);
            && s.resumes[w] <= 1
            && (s.resumes[w] == 1 <==> s.waiters[w] == Resumed)
            && (s.waiters[w] == Resumed || s.waiters[w] == Continued ==> s.signaled)
  {
    hide After, Next, Runs;
    InitialInv(waiters, setters);
    AfterInv(Initial(waiters, setters), acts);
  }

  /** Once the winning setter has taken the list it stays empty for good: whoever takes the lock
      later sees the signal. */
  lemma {:induction false} ListStaysEmpty(s: State, acts: seq<Action>)
    requires Inv(s) && Drained(s) && Runs(s, acts)
    ensures var s' := After(s, acts); Drained(s') && s'.head == None && s'.registered == []
    decreases |acts|
  {
    hide LockInv, DrainInv, CountInv;
    if acts == [] {
      ChainHead(s.next, s.head, s.registered);
    } else {
      StepInv(s, acts[0]);
      DrainedStays(s, acts[0]);
      assert forall i :: 0 <= i < |acts[1..]| ==> Exists(s, acts[1..][i]);
      SameParties(s, acts[0]);
      ListStaysEmpty(Next(s, acts[0]), acts[1..]);
    }
  }

  lemma DrainedStays(s: State, a: Action)
    requires Inv(s) && Drained(s) && Exists(s, a)
    ensures Drained(Next(s, a))
  {
  }

  /** Once the winning setter has finished, every waiter has been resumed exactly once, has gone on
      without suspending, or will go on without suspending. */
  lemma Broadcast(waiters: nat, setters: nat, acts: seq<Action>, w: nat)
    requires Runs(Initial(waiters, setters), acts) && w < waiters
    ensures var s := After(Initial(waiters, setters), acts);
            s.winner.Some? && s.winner.value < |s.setters| && s.setters[s.winner.value] == Finished ==>
              match s.waiters[w]
              case Resumed => s.resumes[w] == 1
              case Continued => s.resumes[w] == 0
              case Fresh => s.signaled
              case WantLock => s.signaled
              case Locked => s.signaled
              case Seen => s.signaled
              case _ => false
  {
    hide After, Next, Runs;
    InitialInv(waiters, setters);
    AfterInv(Initial(waiters, setters), acts);
  }

  // --- It always comes to rest ------------------------------------------------------------------

  function WaiterSteps(x: Waiter): nat {
    match x
    case Fresh => 7
    case WantLock => 6
    case Locked => 5
    case Unsignalled => 4
    case Linked => 3
    case Suspended => 2
    case Seen => 1
    case _ => 0
  }

  function SetterSteps(x: Setter): nat {
    match x
    case Start => 6
    case WantList => 5
    case HasLock => 4
    case HasList(_) => 3
    case Draining(_) => 2
    case Resuming(_, _) => 1
    case _ => 0
  }

  function WaiterWork(xs: seq<Waiter>): seq<nat> {
    seq(|xs|, i requires 0 <= i < |xs| => WaiterSteps(xs[i]))
  }

  function SetterWork(xs: seq<Setter>): seq<nat> {
    seq(|xs|, i requires 0 <= i < |xs| => SetterSteps(xs[i]))
  }

  /** Steps that all parties together can still take, at most. */
  function Work(s: State): nat { Sum(WaiterWork(s.waiters)) + Sum(SetterWork(s.setters)) }

  lemma WaiterMoves(xs: seq<Waiter>, i: nat, x: Waiter)
    requires i < |xs|
    ensures Sum(WaiterWork(xs[i := x])) + WaiterSteps(xs[i]) == Sum(WaiterWork(xs)) + WaiterSteps(x)
  {
    assert WaiterWork(xs[i := x]) == WaiterWork(xs)[i := WaiterSteps(x)];
    SumUpdate(WaiterWork(xs), i, WaiterSteps(x));
  }

  lemma SetterMoves(xs: seq<Setter>, i: nat, x: Setter)
    requires i < |xs|
    ensures Sum(SetterWork(xs[i := x])) + SetterSteps(xs[i]) == Sum(SetterWork(xs)) + SetterSteps(x)
  {
    assert SetterWork(xs[i := x]) == SetterWork(xs)[i := SetterSteps(x)];
    SumUpdate(SetterWork(xs), i, SetterSteps(x));
  }

  /** Every step that changes anything uses up some of the work: the only idle steps are those of parties
      that are done, suspended, or kept from the lock. */
  lemma EveryStepWorks(s: State, a: Action)
    requires Inv(s) && Exists(s, a) && Next(s, a) != s
    ensures Work(Next(s, a)) < Work(s)
  {
    match a
    case WaiterStep(w) =>
      WaiterStepMoves(s, w);
      WaiterMoves(s.waiters, w, Next(s, a).waiters[w]);
    case SetterStep(t) =>
      if s.setters[t].Resuming? {
        ResumesSuspended(s, t);
        WaiterMoves(s.waiters, s.taken[0], Resumed);
      }
      SetterStepMoves(s, t);
      SetterMoves(s.setters, t, Next(s, a).setters[t]);
  }

  lemma WaiterStepMoves(s: State, w: nat)
    requires Inv(s) && w < |s.waiters| && Next(s, WaiterStep(w)) != s
    ensures var s' := Next(s, WaiterStep(w));
            && |s'.waiters| == |s.waiters| && s'.waiters == s.waiters[w := s'.waiters[w]] && s'.setters == s.setters
            && WaiterSteps(s'.waiters[w]) < WaiterSteps(s.waiters[w])
  {
    hide ListInv, DrainInv, LockInv;
  }

  lemma SetterStepMoves(s: State, t: nat)
    requires Inv(s) && t < |s.setters| && Next(s, SetterStep(t)) != s
    ensures var s' := Next(s, SetterStep(t));
            && |s'.setters| == |s.setters| && s'.setters == s.setters[t := s'.setters[t]]
            && (if s.setters[t].Resuming? then
                  s.setters[t].waiter < |s.waiters| && s'.waiters == s.waiters[s.setters[t].waiter := Resumed]
                  && SetterSteps(s'.setters[t]) == 2
                else s'.waiters == s.waiters && SetterSteps(s'.setters[t]) < SetterSteps(s.setters[t]))
  {
    if s.setters[t].Resuming? {
      ResumesSuspended(s, t);
      hide *;
      ResumingMoves(s, t);
    } else {
      hide *;
      OtherSetterMoves(s, t);
    }
  }

  lemma ResumingMoves(s: State, t: nat)
    requires Shape(s) && t < |s.setters| && s.setters[t].Resuming? && s.taken != []
    requires s.setters[t].waiter < |s.waiters|
    ensures var s' := Next(s, SetterStep(t));
            && |s'.setters| == |s.setters| && s'.setters == s.setters[t := s'.setters[t]]
            && s'.waiters == s.waiters[s.setters[t].waiter := Resumed] && SetterSteps(s'.setters[t]) == 2
  {
  }

  lemma OtherSetterMoves(s: State, t: nat)
    requires Shape(s) && t < |s.setters| && !s.setters[t].Resuming? && Next(s, SetterStep(t)) != s
    ensures var s' := Next(s, SetterStep(t));
            && |s'.setters| == |s.setters| && s'.setters == s.setters[t := s'.setters[t]]
            && s'.waiters == s.waiters && SetterSteps(s'.setters[t]) < SetterSteps(s.setters[t])
  {
  }

  /** Nobody can change anything any more. */
  ghost predicate AtRest(s: State)
    requires Shape(s)
  {
    forall a :: Exists(s, a) ==> Next(s, a) == s
  }

  /** Whoever holds the lock can move. */
  lemma HolderMoves(s: State) returns (a: Action)
    requires Inv(s) && s.lock != Nobody
    ensures Exists(s, a) && Next(s, a) != s
  {
    hide ListInv, DrainInv;
    match s.lock {
      case ByWaiter(w) =>
        a := WaiterStep(w);
        assert Next(s, a).waiters[w] != s.waiters[w];
      case BySetter(t) =>
        a := SetterStep(t);
        assert Next(s, a).setters[t] != s.setters[t];
    }
  }

  lemma LockFree(s: State)
    requires Inv(s) && AtRest(s)
    ensures s.lock == Nobody
  {
    hide Inv, Next;
    if s.lock != Nobody {
      var a := HolderMoves(s);
      assert false;
    }
  }

  lemma SettersDone(s: State, t: nat)
    requires Inv(s) && AtRest(s) && t < |s.setters|
    ensures s.setters[t] == Lost || s.setters[t] == Finished
  {
    LockFree(s);
    hide Chain;
    var s' := Next(s, SetterStep(t));
    assert s' == s by { assert Exists(s, SetterStep(t)); }
    if s.setters[t].Resuming? {
      ResumesSuspended(s, t);
    } else if s.setters[t].Draining? && s.setters[t].current.Some? {
      assert s.winner == Some(t);
      ChainHead(s.next, s.setters[t].current, s.taken);
    }
    assert s'.setters[t] == s.setters[t];
  }

  lemma WaitersDone(s: State, w: nat)
    requires Inv(s) && AtRest(s) && w < |s.waiters|
    ensures s.waiters[w] == Suspended || s.waiters[w] == Continued || s.waiters[w] == Resumed
  {
    LockFree(s);
    hide ListInv, DrainInv, LockInv;
    var s' := Next(s, WaiterStep(w));
    assert s' == s by { assert Exists(s, WaiterStep(w)); }
    assert s'.waiters[w] == s.waiters[w];
  }

  /** However the parties are interleaved, once nobody can move any more: if anybody set the event, every
      waiter has gone on, resumed exactly once or not suspended at all; if nobody did, all wait. */
  lemma Settles(waiters: nat, setters: nat, acts: seq<Action>, w: nat)
    requires Runs(Initial(waiters, setters), acts) && w < waiters
    requires AtRest(After(Initial(waiters, setters), acts))
    ensures var s := After(Initial(waiters, setters), acts);
            if setters > 0 then
              && s.signaled && (s.waiters[w] == Continued || s.waiters[w] == Resumed)
              && s.resumes[w] == if s.waiters[w] == Resumed then 1 else 0
            else !s.signaled && s.waiters[w] == Suspended && s.resumes[w] == 0
  {
    InitialInv(waiters, setters);
    AfterInv(Initial(waiters, setters), acts);
    var s := After(Initial(waiters, setters), acts);
    hide After, Next, Runs, AtRest, Chain, LockInv;
    WaitersDone(s, w);
    if setters > 0 {
      SettersDone(s, 0);
      assert s.winner.Some?;
      SettersDone(s, s.winner.value);
      assert Drained(s) && s.taken == [] && s.registered == [];
      assert s.registered + s.taken == [];
    }
  }

  /** A waiter that starts to wait after the event was set goes on at once; one that starts before does
      not go on until it has looked at the list. */
  lemma FirstLook(s: State, w: nat)
    requires Inv(s) && w < |s.waiters| && s.waiters[w] == Fresh
    ensures var s' := Next(s, WaiterStep(w));
            && w < |s'.waiters| && (s.signaled <==> s'.waiters[w] == Continued)
            && (s.signaled ==> s'.lock == s.lock && s'.head == s.head)
  {
  }
}
