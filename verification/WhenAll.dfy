/**
 `when_all`: any number of tasks, started one after the other by the suspending coroutine and
 finishing in any order, also during start-up, and a shared countdown whose last decrement
 schedules the continuation.

 `scheduled` and `misuse` are history: how often the continuation was scheduled, and whether
 anybody used the counter, a result slot or a task after the continuation may have run.
 */
module WhenAll {
  import opened Basics
  import opened Sums

  datatype Task =
    | NotStarted
    | Running                    // awaiting its task
    | Written                    // result slot written, about to decrement
    | Last                       // its decrement was the last; about to schedule
    | Finished

  datatype State = State(
    count: int,
    continuation: bool,          // continuation_ is set
    started: nat,                // tasks 0..started-1 have been started
    tasks: seq<Task>,
    results: seq<Option<int>>,   // result slots
    scheduled: nat,
    ran: bool,                   // the continuation has been resumed
    misuse: bool)

  datatype Action =
    | Suspend                    // store the continuation
    | StartNext
    | Write(i: nat, result: int)
    | Decrement(i: nat)
    | ScheduleBy(i: nat)
    | RunContinuation

  function Initial(n: nat): State {
    State(n, false, 0, seq(n, _ => NotStarted), seq(n, _ => None), 0, false, false)
  }

  predicate Enabled(s: State, a: Action) {
    match a
    case Suspend => !s.continuation
    case StartNext => s.continuation && s.started < |s.tasks|
    case Write(i, _) => i < |s.tasks| == |s.results| && s.tasks[i] == Running
    case Decrement(i) => i < |s.tasks| && s.tasks[i] == Written
    case ScheduleBy(i) => i < |s.tasks| && s.tasks[i] == Last
    case RunContinuation => s.scheduled > 0 && !s.ran
  }

  function Use(s: State): State { s.(misuse := s.misuse || s.ran) }

  function Next(s: State, a: Action): State
    requires Enabled(s, a)
  {
    match a
    case Suspend => Use(s).(continuation := true)
    case StartNext => Use(s).(tasks := s.tasks[s.started := Running], started := s.started + 1)
    case Write(i, v) => Use(s).(tasks := s.tasks[i := Written], results := s.results[i := Some(v)])
    case Decrement(i) =>
      Use(s).(tasks := s.tasks[i := if s.count == 1 then Last else Finished], count := s.count - 1)
    case ScheduleBy(i) =>
      Use(s).(tasks := s.tasks[i := Finished], scheduled := if s.continuation then s.scheduled + 1 else s.scheduled)
    case RunContinuation => s.(ran := true)
  }

  /** Tasks that have not decremented the counter yet. */
  function Outstanding(tasks: seq<Task>): nat {
    if tasks == [] then 0
    else (if tasks[0].Last? || tasks[0].Finished? then 0 else 1) + Outstanding(tasks[1..])
  }

  lemma {:induction false} OutstandingUpdate(tasks: seq<Task>, i: nat, t: Task)
    requires i < |tasks|
    ensures Outstanding(tasks[i := t]) == Outstanding(tasks)
              - (if tasks[i].Last? || tasks[i].Finished? then 0 else 1)
              + (if t.Last? || t.Finished? then 0 else 1)
  {
    if i == 0 {
      assert tasks[i := t][1..] == tasks[1..];
    } else {
      assert tasks[i := t][1..] == tasks[1..][i - 1 := t];
      OutstandingUpdate(tasks[1..], i - 1, t);
    }
  }

  lemma {:induction false} NoneOutstanding(tasks: seq<Task>)
    ensures Outstanding(tasks) == 0 <==> forall i :: 0 <= i < |tasks| ==> tasks[i].Last? || tasks[i].Finished?
  {
    if tasks != [] {
      NoneOutstanding(tasks[1..]);
      assert forall i :: 0 < i < |tasks| ==> tasks[i] == tasks[1..][i - 1];
    }
  }

  ghost predicate HasLast(s: State) {
    exists i :: 0 <= i < |s.tasks| && s.tasks[i] == Last
  }

  ghost predicate Inv(s: State) {
    && !s.misuse
    && |s.tasks| == |s.results| > 0
    && (forall i :: 0 <= i < |s.tasks| ==>
          (s.results[i] == None <==> s.tasks[i] == NotStarted || s.tasks[i] == Running))
    && s.count == Outstanding(s.tasks)
    && s.started <= |s.tasks|
    && (forall i :: 0 <= i < |s.tasks| ==> (s.tasks[i] == NotStarted <==> s.started <= i))
    && (s.started > 0 ==> s.continuation)
    && (forall i, j :: 0 <= i < j < |s.tasks| ==> s.tasks[i] != Last || s.tasks[j] != Last)
    && (s.count == 0 <==> s.scheduled > 0 || HasLast(s))
    && s.scheduled <= 1
    && (s.scheduled > 0 ==> !HasLast(s))
    && (s.ran ==> s.scheduled > 0)
  }

  lemma InitialInv(n: nat)
    requires n > 0
    ensures Inv(Initial(n))
  {
    AllOutstanding(n);
  }

  lemma {:induction false} AllOutstanding(n: nat)
    ensures Outstanding(seq(n, _ => NotStarted)) == n
  {
    if n > 0 {
      AllOutstanding(n - 1);
      assert seq(n, _ => NotStarted)[1..] == seq(n - 1, _ => NotStarted);
    }
  }

  /** Once the continuation is scheduled no task has anything left to do. */
  lemma ScheduledMeansDone(s: State)
    requires Inv(s) && s.scheduled > 0
    ensures s.started == |s.tasks| && forall i :: 0 <= i < |s.tasks| ==> s.tasks[i] == Finished
  {
    assert s.started < |s.tasks| ==> s.tasks[s.started] == NotStarted;
    NoneOutstanding(s.tasks);
  }

  lemma DecrementInv(s: State, i: nat)
    requires Inv(s) && Enabled(s, Decrement(i))
    ensures Inv(Next(s, Decrement(i)))
  {
    if s.scheduled > 0 { ScheduledMeansDone(s); }
    var s' := Next(s, Decrement(i));
    OutstandingUpdate(s.tasks, i, s'.tasks[i]);
    NoneOutstanding(s.tasks);
    assert s.count > 0;
    NoLast(s);
    if s.count == 1 {
      assert s'.tasks[i] == Last && HasLast(s');
    } else {
      forall j | 0 <= j < |s'.tasks| ensures s'.tasks[j] != Last {}
    }
  }

  lemma NoLast(s: State)
    requires Inv(s) && s.count > 0
    ensures s.scheduled == 0 && forall j :: 0 <= j < |s.tasks| ==> s.tasks[j] != Last
  {
    forall j | 0 <= j < |s.tasks| ensures s.tasks[j] != Last {
      if s.tasks[j] == Last { assert HasLast(s); }
    }
  }

  lemma ScheduleInv(s: State, i: nat)
    requires Inv(s) && Enabled(s, ScheduleBy(i))
    ensures Inv(Next(s, ScheduleBy(i))) && Next(s, ScheduleBy(i)).scheduled == 1
  {
    assert HasLast(s);
    NoneOutstanding(s.tasks);
    var s' := Next(s, ScheduleBy(i));
    OutstandingUpdate(s.tasks, i, Finished);
    assert s.tasks[i] != NotStarted && s.started > 0;
  }

  /** Starting a task or writing a result: the counter is still positive. */
  lemma ProgressInv(s: State, i: nat, t: Task, result: Option<int>)
    requires Inv(s) && i < |s.tasks| && (t == Running || t == Written)
    requires s.tasks[i] == NotStarted || s.tasks[i] == Running
    requires t == Running ==> i == s.started && s.continuation && result == s.results[i]
    requires t == Written ==> s.tasks[i] == Running && result.Some?
    ensures Inv(s.(tasks := s.tasks[i := t], started := if t == Running then s.started + 1 else s.started,
                   results := s.results[i := result]))
    ensures !s.ran
  {
    OutstandingUpdate(s.tasks, i, t);
    NoneOutstanding(s.tasks);
    assert s.count > 0;
    NoLast(s);
    var tasks := s.tasks[i := t];
    forall j | 0 <= j < |tasks| ensures tasks[j] != Last {}
  }

  lemma StepInv(s: State, a: Action)
    requires Inv(s) && Enabled(s, a)
    ensures Inv(Next(s, a))
  {
    match a
    case Suspend => SuspendInv(s);
    case StartNext =>
      hide Inv;
      StartInv(s);
    case Write(i, v) =>
      hide Inv;
      ProgressInv(s, i, Written, Some(v));
      Unused(s);
    case Decrement(i) => DecrementInv(s, i);
    case ScheduleBy(i) => ScheduleInv(s, i);
    case RunContinuation => assert Outstanding(Next(s, a).tasks) == s.count;
  }

  lemma Unused(s: State)
    requires Inv(s) && !s.ran
    ensures Use(s) == s
  {
  }

  lemma StartInv(s: State)
    requires Inv(s) && Enabled(s, StartNext)
    ensures Inv(Next(s, StartNext))
  {
    assert s.tasks[s.started] == NotStarted;
    ProgressInv(s, s.started, Running, s.results[s.started]);
    assert s.results[s.started := s.results[s.started]] == s.results;
    Unused(s);
    hide Inv;
  }

  lemma SuspendInv(s: State)
    requires Inv(s) && Enabled(s, Suspend)
    ensures Inv(Next(s, Suspend))
  {
    if s.scheduled > 0 { ScheduledMeansDone(s); }
  }

  predicate Runs(s: State, acts: seq<Action>)
    decreases |acts|
  {
    acts == [] || (Enabled(s, acts[0]) && Runs(Next(s, acts[0]), acts[1..]))
  }

  function After(s: State, acts: seq<Action>): State
    requires Runs(s, acts)
    decreases |acts|
  {
    if acts == [] then s else After(Next(s, acts[0]), acts[1..])
  }

  lemma {:induction false} AfterInv(s: State, acts: seq<Action>)
    requires Inv(s) && Runs(s, acts)
    ensures Inv(After(s, acts))
    decreases |acts|
  {
    hide Inv, Next, Enabled;
    if acts != [] {
      StepInv(s, acts[0]);
      AfterInv(Next(s, acts[0]), acts[1..]);
    }
  }

  /** For any number of tasks and any order of completion: the continuation is scheduled at most
      once, only when every result slot is written and every task has done its last access; nobody
      uses the shared state after the continuation may have run; and when every task has finished,
      the continuation has been scheduled. */
  lemma ContinuesOnce(n: nat, acts: seq<Action>)
    requires n > 0 && Runs(Initial(n), acts)
    ensures var s := After(Initial(n), acts);
            && !s.misuse
            && s.scheduled <= 1
            && (s.scheduled == 1 <==> forall i :: 0 <= i < |s.tasks| ==> s.tasks[i] == Finished)
            && (s.scheduled == 1 ==> forall i :: 0 <= i < |s.results| ==> s.results[i].Some?)
  {
    hide Next, Enabled, Runs, After;
    InitialInv(n);
    AfterInv(Initial(n), acts);
    var s := After(Initial(n), acts);
    if s.scheduled > 0 {
      ScheduledMeansDone(s);
    } else if forall i :: 0 <= i < |s.tasks| ==> s.tasks[i] == Finished {
      NoneOutstanding(s.tasks);
      assert false;
    }
  }

  /** A written result is never changed: what the continuation collects is what the task returned. */
  lemma {:induction false} ResultKept(s: State, acts: seq<Action>, i: nat)
    requires Inv(s) && Runs(s, acts) && i < |s.results| && s.results[i].Some?
    ensures |After(s, acts).results| == |s.results| && After(s, acts).results[i] == s.results[i]
    decreases |acts|
  {
    if acts != [] {
      StepInv(s, acts[0]);
      hide Inv, Enabled;
      ResultStep(s, acts[0], i);
      ResultKept(Next(s, acts[0]), acts[1..], i);
    }
  }

  lemma ResultStep(s: State, a: Action, i: nat)
    requires Inv(s) && Enabled(s, a) && i < |s.results| && s.results[i].Some?
    ensures |Next(s, a).results| == |s.results| && Next(s, a).results[i] == s.results[i]
  {
  }

  // --- Whose result it is ----------------------------------------------------------------------

  lemma {:induction false} ResultFrom(s: State, acts: seq<Action>, i: nat, v: int)
    requires Inv(s) && Runs(s, acts) && i < |s.results|
    ensures |After(s, acts).results| == |s.results|
    ensures After(s, acts).results[i] == Some(v) <==> s.results[i] == Some(v) || Write(i, v) in acts
    decreases |acts|
  {
    if acts != [] {
      StepInv(s, acts[0]);
      WriteStep(s, acts[0], i, v);
      hide Inv, Enabled, Next;
      assert acts == [acts[0]] + acts[1..];
      ResultFrom(Next(s, acts[0]), acts[1..], i, v);
    }
  }

  lemma WriteStep(s: State, a: Action, i: nat, v: int)
    requires Inv(s) && Enabled(s, a) && i < |s.results|
    ensures |Next(s, a).results| == |s.results|
    ensures Next(s, a).results[i] == Some(v) <==> s.results[i] == Some(v) || a == Write(i, v)
  {
  }

  /** Over every run a result slot holds what its own task returned, and nothing else. */
  lemma ResultIsOwn(n: nat, acts: seq<Action>, i: nat, v: int)
    requires i < n && Runs(Initial(n), acts)
    ensures |After(Initial(n), acts).results| == n
    ensures After(Initial(n), acts).results[i] == Some(v) <==> Write(i, v) in acts
  {
    InitialInv(n);
    ResultFrom(Initial(n), acts, i, v);
  }

  // --- It always completes -----------------------------------------------------------------

  function StepsLeft(t: Task): nat {
    match t
    case NotStarted => 4
    case Running => 3
    case Written => 2
    case Last => 1
    case Finished => 0
  }

  function TaskWork(tasks: seq<Task>): seq<nat> {
    seq(|tasks|, i requires 0 <= i < |tasks| => StepsLeft(tasks[i]))
  }

  /** Steps that the whole can still take, at most. */
  function Work(s: State): nat {
    Sum(TaskWork(s.tasks)) + (if s.continuation then 0 else 1) + if s.ran then 0 else 1
  }

  /** Every step uses up some of the work, so no run goes on for ever. */
  lemma EveryStepWorks(s: State, a: Action)
    requires Inv(s) && Enabled(s, a)
    ensures Work(Next(s, a)) < Work(s)
  {
    var s' := Next(s, a);
    match a
    case StartNext => TaskMoves(s.tasks, s.started, Running);
    case Write(i, _) => TaskMoves(s.tasks, i, Written);
    case Decrement(i) => TaskMoves(s.tasks, i, s'.tasks[i]);
    case ScheduleBy(i) => TaskMoves(s.tasks, i, Finished);
    case _ =>
  }

  lemma TaskMoves(tasks: seq<Task>, i: nat, t: Task)
    requires i < |tasks|
    ensures Sum(TaskWork(tasks[i := t])) + StepsLeft(tasks[i]) == Sum(TaskWork(tasks)) + StepsLeft(t)
  {
    assert TaskWork(tasks[i := t]) == TaskWork(tasks)[i := StepsLeft(t)];
    SumUpdate(TaskWork(tasks), i, StepsLeft(t));
  }

  /** A run that cannot be continued is complete: the continuation was scheduled once and has run, with
      all results in place. */
  lemma Completes(n: nat, acts: seq<Action>)
    requires n > 0 && Runs(Initial(n), acts)
    requires forall a :: !Enabled(After(Initial(n), acts), a)
    ensures var s := After(Initial(n), acts);
            && s.scheduled == 1 && s.ran && |s.tasks| == |s.results| == n
            && forall i :: 0 <= i < n ==> s.tasks[i] == Finished && s.results[i].Some?
  {
    InitialInv(n);
    AfterInv(Initial(n), acts);
    ContinuesOnce(n, acts);
    ResultIsOwn(n, acts, 0, 0);
    var s := After(Initial(n), acts);
    hide After, Runs;
    assert !Enabled(s, Suspend) && !Enabled(s, StartNext) && !Enabled(s, RunContinuation);
    forall i | 0 <= i < |s.tasks| ensures s.tasks[i] == Finished {
      assert !Enabled(s, Write(i, 0)) && !Enabled(s, Decrement(i)) && !Enabled(s, ScheduleBy(i));
    }
  }
}
