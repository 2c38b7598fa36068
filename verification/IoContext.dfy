/**
 The life of one I/O context: shared by the kernel, which holds its address until the
 completion entry is read, and by a movable awaiter, of which at most one holds the pointer.

 `posted`, `deletes`, `touched` and `late` are history: the result in the completion entry, how often
 the context was deleted, whether it was used after that, and whether an awaiter still holding it was
 destroyed after the completion.
 */
module IoContexts {

  import opened Basics

  /** An awaiter object: it holds the context, it is empty, or it has been destroyed. */
  datatype Awaiter = Holds | Empty | Gone

  datatype State = State(
    live: bool,
    coro: bool,                 // coro_ is set
    cancelled: bool,            // cancelled_
    res: int,                   // the result written by the completion
    awaiters: seq<Awaiter>,
    suspended: Option<nat>,     // the awaiter a coroutine is suspended on
    completed: bool,            // the completion entry has been read
    ready: bool,                // the completion has scheduled the coroutine
    resumed: bool,
    returned: int,              // what the resumption returned
    posted: int,
    deletes: nat,
    touched: bool,
    late: bool)

  datatype Action = Move(from: nat) | Suspend(on: nat) | Complete(result: int) | Resume | Destroy(which: nat)

  function Initial(): State {
    State(true, false, false, 0, [Holds], None, false, false, false, 0, 0, 0, false, false)
  }

  function Touch(s: State): State { s.(touched := s.touched || !s.live) }

  function Delete(s: State): State { s.(live := false, deletes := s.deletes + 1) }

  /** C++ rules out moving or destroying a destroyed object, suspending on an empty awaiter, and moving
      the awaiter of a suspended coroutine.  `Resume` is the resumption of a coroutine that still
      exists; the scheduler does not check that, see `DanglingHandle`. */
  predicate Enabled(s: State, a: Action) {
    match a
    case Move(i) => i < |s.awaiters| && s.awaiters[i] != Gone && s.suspended != Some(i)
    case Suspend(i) => i < |s.awaiters| && s.awaiters[i] == Holds && s.suspended == None
    case Complete(_) => !s.completed
    case Resume => s.ready && !s.resumed && s.suspended.Some? && s.suspended.value < |s.awaiters|
                   && s.awaiters[s.suspended.value] != Gone
    case Destroy(i) => i < |s.awaiters| && s.awaiters[i] != Gone
  }

  function Next(s: State, a: Action): State
    requires Enabled(s, a)
  {
    match a
    case Move(i) => s.(awaiters := s.awaiters[i := Empty] + [s.awaiters[i]])
    case Suspend(i) => Touch(s).(coro := true, suspended := Some(i))
    case Complete(result) =>
      var s1 := Touch(s).(completed := true, posted := result);
      if s.cancelled then Delete(s1) else s1.(res := result, ready := s.coro)
    case Resume =>
      Delete(Touch(s)).(awaiters := s.awaiters[s.suspended.value := Empty], resumed := true, returned := s.res)
    case Destroy(i) =>
      if s.awaiters[i] == Holds
      then Touch(s).(cancelled := true, awaiters := s.awaiters[i := Gone], late := s.late || s.completed)
      else s.(awaiters := s.awaiters[i := Gone])
  }

  predicate Runs(s: State, acts: seq<Action>)
    decreases |acts|
  {
    acts == [] || (Enabled(s, acts[0]) && Runs(Next(s, acts[0]), acts[1..]))
  }

  function After(s: State, acts: seq<Action>): State
    requires Runs(s, acts)
    decreases |acts|
  {
    if acts == [] then s else After(Next(s, acts[0]), acts[1..])
  }

  /** Some awaiter holds the context. */
  ghost predicate Held(s: State) {
    exists i :: 0 <= i < |s.awaiters| && s.awaiters[i] == Holds
  }

  /** Whoever still has a claim on the context finds it alive, and only the last claim ends it. */
  ghost predicate Inv(s: State) {
    && !s.touched
    && s.deletes == (if s.live then 0 else 1)
    && (forall i, j :: 0 <= i < j < |s.awaiters| ==> s.awaiters[i] != Holds || s.awaiters[j] != Holds)
    && (Held(s) ==> s.live && !s.cancelled && !s.resumed)
    && (!s.completed ==> s.live && !s.ready && !s.late && !s.resumed && (s.cancelled <==> !Held(s)))
    && (s.ready ==> s.completed && s.coro)
    && (s.suspended == None <==> !s.coro)
    && (s.suspended.Some? ==> s.suspended.value < |s.awaiters|
                              && (!s.resumed ==> s.awaiters[s.suspended.value] != Empty))
    && (s.resumed ==> s.completed && s.returned == s.posted)
    && (s.completed && s.live ==> s.res == s.posted)
    && (s.completed && !Held(s) ==> (s.live <==> s.late))
    && (s.late ==> s.completed && s.live && !Held(s))
    && (s.suspended.Some? && Held(s) ==> s.awaiters[s.suspended.value] == Holds)
    && (s.ready ==> Held(s) || s.late || s.resumed)
    && (s.resumed ==> !s.live)
  }

  lemma MoveInv(s: State, i: nat)
    requires Inv(s) && Enabled(s, Move(i))
    ensures Inv(Next(s, Move(i)))
  {
    var s' := Next(s, Move(i));
    assert Held(s) ==> Held(s') by {
      if j :| 0 <= j < |s.awaiters| && s.awaiters[j] == Holds {
        assert s'.awaiters[if j == i then |s.awaiters| else j] == Holds;
      }
    }
    assert Held(s') ==> Held(s) by {
      if j :| 0 <= j < |s'.awaiters| && s'.awaiters[j] == Holds {
        assert s.awaiters[if j == |s.awaiters| then i else j] == Holds;
      }
    }
  }

  lemma StepInv(s: State, a: Action)
    requires Inv(s) && Enabled(s, a)
    ensures Inv(Next(s, a))
  {
    if a.Move? {
      MoveInv(s, a.from);
    } else {
      var s' := Next(s, a);
      if a.Resume? { assert s.awaiters[s.suspended.value] == Holds; }
      forall i | 0 <= i < |s'.awaiters| && s'.awaiters[i] == Holds
        ensures s.awaiters[i] == Holds
      {}
    }
  }

  lemma {:induction false} AfterInv(s: State, acts: seq<Action>)
    requires Inv(s) && Runs(s, acts)
    ensures Inv(After(s, acts))
    decreases |acts|
  {
    if acts != [] {
      StepInv(s, acts[0]);
      AfterInv(Next(s, acts[0]), acts[1..]);
    }
  }

  lemma InitialInv()
    ensures Inv(Initial())
  {
    assert Initial().awaiters[0] == Holds;
  }

  // --- How often the context is deleted -----------------------------------------------------

  /** An awaiter that holds the context is destroyed after the completion was read. */
  predicate DestroyedLate(s: State, acts: seq<Action>)
    requires Runs(s, acts)
    decreases |acts|
  {
    && acts != []
    && ((acts[0].Destroy? && s.completed && s.awaiters[acts[0].which] == Holds)
        || DestroyedLate(Next(s, acts[0]), acts[1..]))
  }

  lemma {:induction false} LateIs(s: State, acts: seq<Action>)
    requires Runs(s, acts)
    ensures After(s, acts).late <==> s.late || DestroyedLate(s, acts)
    decreases |acts|
  {
    if acts != [] {
      LateStep(s, acts[0]);
      hide Next, Enabled;
      LateIs(Next(s, acts[0]), acts[1..]);
    }
  }

  lemma LateStep(s: State, a: Action)
    requires Enabled(s, a)
    ensures Next(s, a).late <==> s.late || (a.Destroy? && s.completed && s.awaiters[a.which] == Holds)
  {
    match a
    case Move(_) =>
    case Suspend(_) =>
    case Complete(_) =>
    case Resume =>
    case Destroy(_) =>
  }

  /** In every interleaving the context is never used after its deletion nor deleted twice; and once
      the completion is read and no awaiter holds the context, it has been deleted exactly once
      unless an awaiter that still held it was destroyed after the completion, and then it leaks.
      The resumption returns what the completion reported, however often the awaiter was moved. */
  lemma ContextLifetime(acts: seq<Action>)
    requires Runs(Initial(), acts)
    ensures var s := After(Initial(), acts);
            && !s.touched && s.deletes <= 1
            && (s.completed && !Held(s) ==> (s.deletes == 1 <==> !DestroyedLate(Initial(), acts)))
            && (s.resumed ==> s.completed && Complete(s.returned) in acts)
  {
    PostedIs(Initial(), acts);
    hide Runs, After, DestroyedLate;
    InitialInv();
    AfterInv(Initial(), acts);
    LateIs(Initial(), acts);
  }

  /** What was posted is what the completion carried. */
  lemma {:induction false} PostedIs(s: State, acts: seq<Action>)
    requires Runs(s, acts)
    ensures s.completed ==> After(s, acts).completed && After(s, acts).posted == s.posted
    ensures !s.completed && After(s, acts).completed ==> Complete(After(s, acts).posted) in acts
    decreases |acts|
  {
    if acts != [] {
      PostedStep(s, acts[0]);
      hide Next, Enabled;
      PostedIs(Next(s, acts[0]), acts[1..]);
      assert acts == [acts[0]] + acts[1..];
    }
  }

  lemma PostedStep(s: State, a: Action)
    requires Enabled(s, a)
    ensures s.completed ==> Next(s, a).completed && Next(s, a).posted == s.posted
    ensures !s.completed && Next(s, a).completed ==> a == Complete(Next(s, a).posted)
  {
    match a
    case Move(_) =>
    case Suspend(_) =>
    case Complete(_) =>
    case Resume =>
    case Destroy(_) =>
  }

  /** The leak is within reach: the completion is read and the awaiter destroyed without `co_await`. */
  lemma ContextLeaks(result: int)
    ensures var acts := [Complete(result), Destroy(0)];
            Runs(Initial(), acts) && var s := After(Initial(), acts);
            s.completed && !Held(s) && s.deletes == 0
  {
    var s1 := Next(Initial(), Complete(result));
    var s2 := Next(s1, Destroy(0));
    assert [Complete(result), Destroy(0)][1..] == [Destroy(0)] && [Destroy(0)][1..] == [];
    assert Runs(s2, []);
    assert Runs(s1, [Destroy(0)]) && After(s1, [Destroy(0)]) == s2;
    assert Runs(Initial(), [Complete(result), Destroy(0)]);
  }

  // --- Which coroutines are resumed ---------------------------------------------------------

  /** Only the completion schedules the coroutine, and there is only one. */
  lemma {:induction false} EarlyCompletionIsLost(s: State, acts: seq<Action>)
    requires s.completed && !s.ready && Runs(s, acts)
    ensures var s' := After(s, acts); !s'.ready && Resume !in acts
    decreases |acts|
  {
    if acts != [] {
      EarlyCompletionIsLost(Next(s, acts[0]), acts[1..]);
      assert acts == [acts[0]] + acts[1..];
    }
  }

  /** Exactly the coroutines suspended by the time of the completion, on an awaiter still alive, are
      scheduled by it. */
  lemma CompletionSchedules(acts: seq<Action>, result: int)
    requires Runs(Initial(), acts) && !After(Initial(), acts).completed
    ensures var s := After(Initial(), acts);
            Enabled(s, Complete(result)) && (Next(s, Complete(result)).ready <==> s.suspended.Some? && Held(s))
  {
    hide Runs, After;
    InitialInv();
    AfterInv(Initial(), acts);
  }

  /** The first suspension or completion of the run is a suspension. */
  predicate SuspendsFirst(acts: seq<Action>)
    decreases |acts|
  {
    acts != [] && (acts[0].Suspend? || (!acts[0].Complete? && SuspendsFirst(acts[1..])))
  }

  lemma {:induction false} NobodyHoldsAgain(s: State, acts: seq<Action>)
    requires Inv(s) && Runs(s, acts) && !Held(s) && !s.late
    ensures !Held(After(s, acts)) && !After(s, acts).late
    decreases |acts|
  {
    if acts != [] {
      StepInv(s, acts[0]);
      NotHeldStep(s, acts[0]);
      hide Inv, Next, Enabled;
      NobodyHoldsAgain(Next(s, acts[0]), acts[1..]);
    }
  }

  lemma NotHeldStep(s: State, a: Action)
    requires Inv(s) && Enabled(s, a) && !Held(s) && !s.late
    ensures !Held(Next(s, a)) && !Next(s, a).late
  {
    var s' := Next(s, a);
    forall i | 0 <= i < |s'.awaiters| ensures s'.awaiters[i] != Holds {
      if i < |s.awaiters| { assert s.awaiters[i] != Holds; }
    }
  }

  /** Unless the last holder gave up before the completion, the coroutine is scheduled just when it
      suspended before the completion. */
  lemma {:induction false} ReadyIs(s: State, acts: seq<Action>)
    requires Inv(s) && Runs(s, acts) && After(s, acts).completed
    requires Held(After(s, acts)) || After(s, acts).late
    ensures After(s, acts).ready <==> if s.completed then s.ready else s.coro || SuspendsFirst(acts)
    decreases |acts|
  {
    if acts != [] {
      if !Held(s) && !s.late {
        NobodyHoldsAgain(s, acts);
        assert false;
      }
      StepInv(s, acts[0]);
      ReadyIs(Next(s, acts[0]), acts[1..]);
    }
  }

  /** A coroutine that is suspended on a live awaiter after the completion can be resumed, now or ever,
      exactly when it suspended before the completion was read. */
  lemma ResumesIffSuspendedFirst(acts: seq<Action>)
    requires Runs(Initial(), acts)
    requires var s := After(Initial(), acts);
             && s.completed && s.suspended.Some? && s.suspended.value < |s.awaiters|
             && s.awaiters[s.suspended.value] == Holds
    ensures var s := After(Initial(), acts);
            && (SuspendsFirst(acts) <==> Enabled(s, Resume))
            && (SuspendsFirst(acts) <==> exists more :: Runs(s, more) && Resume in more)
  {
    InitialInv();
    AfterInv(Initial(), acts);
    ReadyIs(Initial(), acts);
    var s := After(Initial(), acts);
    hide Runs, After;
    if s.ready {
      ResumeRuns(s);
    } else {
      forall more | Runs(s, more) ensures Resume !in more {
        EarlyCompletionIsLost(s, more);
      }
    }
  }

  /** A run in which the suspension comes too late: nothing will ever resume the coroutine. */
  lemma LateSuspensionReached(result: int)
    ensures var acts := [Complete(result), Suspend(0)];
            Runs(Initial(), acts) && var s := After(Initial(), acts);
            && s.completed && s.suspended == Some(0) && s.awaiters == [Holds]
            && !Enabled(s, Resume) && forall more :: Runs(s, more) ==> Resume !in more
  {
    var acts := [Complete(result), Suspend(0)];
    var s1 := Next(Initial(), acts[0]);
    var s2 := Next(s1, acts[1]);
    assert acts[1..] == [acts[1]] && acts[1..][1..] == [];
    assert Runs(s2, []);
    assert Runs(s1, acts[1..]) && After(s1, acts[1..]) == s2;
    assert Runs(Initial(), acts) && After(Initial(), acts) == s2;
    forall more | Runs(s2, more) ensures Resume !in more {
      EarlyCompletionIsLost(s2, more);
    }
  }

  lemma ResumeRuns(s: State)
    requires Enabled(s, Resume)
    ensures Runs(s, [Resume]) && Resume in [Resume]
  {
    assert Runs(Next(s, Resume), []);
  }

  /** The handle of a destroyed coroutine is in the ready queue. */
  predicate Dangling(s: State) {
    && s.ready && !s.resumed
    && s.suspended.Some? && s.suspended.value < |s.awaiters| && s.awaiters[s.suspended.value] == Gone
  }

  /** Destroying a coroutine between its completion and its resumption leaves its handle scheduled;
      nothing else does. */
  lemma DanglingHandle(acts: seq<Action>)
    requires Runs(Initial(), acts)
    ensures Dangling(After(Initial(), acts)) <==> SuspendsFirst(acts) && DestroyedLate(Initial(), acts)
  {
    hide Runs, After, DestroyedLate, SuspendsFirst;
    InitialInv();
    AfterInv(Initial(), acts);
    LateIs(Initial(), acts);
    var s := After(Initial(), acts);
    if s.late { ReadyIs(Initial(), acts); }
  }

  /** Such a run exists. */
  lemma DanglingReached(result: int)
    ensures var acts := [Suspend(0), Complete(result), Destroy(0)];
            Runs(Initial(), acts) && Dangling(After(Initial(), acts))
  {
    var acts := [Suspend(0), Complete(result), Destroy(0)];
    var s1 := Next(Initial(), acts[0]);
    var s2 := Next(s1, acts[1]);
    var s3 := Next(s2, acts[2]);
    assert acts[1..][0] == acts[1] && acts[1..][1..] == acts[2..] && acts[2..][1..] == [];
    assert Runs(s3, []);
    assert Runs(s2, acts[2..]) && After(s2, acts[2..]) == s3;
    assert Runs(s1, acts[1..]) && After(s1, acts[1..]) == s3;
  }

  /** The ordinary course, from every reachable state in which a coroutine is suspended on a live awaiter
      and the operation is under way: the completion and the resumption follow, the result is returned,
      and the context is deleted. */
  lemma OrdinaryCourse(acts: seq<Action>, result: int)
    requires Runs(Initial(), acts)
    requires var s := After(Initial(), acts); !s.completed && s.suspended.Some? && Held(s)
    ensures var s := After(Initial(), acts);
            && Enabled(s, Complete(result)) && Enabled(Next(s, Complete(result)), Resume)
            && var s' := Next(Next(s, Complete(result)), Resume);
            && s'.resumed && s'.returned == result && s'.deletes == 1 && !s'.touched && !Held(s')
  {
    hide Runs, After;
    InitialInv();
    AfterInv(Initial(), acts);
    var s := After(Initial(), acts);
    var s1 := Next(s, Complete(result));
    StepInv(s, Complete(result));
    assert s1.awaiters[s1.suspended.value] == Holds;
    StepInv(s1, Resume);
  }

  /** The cancelled course: the awaiter is destroyed first, and the completion deletes the context. */
  lemma CancelledCourse(acts: seq<Action>, result: int)
    requires Runs(Initial(), acts)
    requires var s := After(Initial(), acts); !s.completed && !Held(s)
    ensures var s := After(Initial(), acts);
            && Enabled(s, Complete(result))
            && var s' := Next(s, Complete(result)); s'.deletes == 1 && !s'.touched && !s'.ready
  {
    hide Runs, After;
    InitialInv();
    AfterInv(Initial(), acts);
  }
}
