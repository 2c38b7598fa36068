/**
 Messages that a scheduler has queued but not submitted.  A scheduler submits only after an empty
 batch, or when its submission queue is full; as long as it stays busy it withholds the wake-ups it
 owes.
 */
module Withholding {
  import opened Basics
  import opened Wakeup
  import opened Paths
  import opened StopRuns

  /** The step submits what scheduler `j` has queued: the submission before a wait, or a notification
      that finds the submission queue full. */
  predicate Submits(s: State, a: Action, j: nat)
    requires Shape(s) && Enabled(s, a)
  {
    match a
    case SubmitAll(i, _) => i == j
    case SchedNotify(i, full) => i == j && full && s.sch[s.sch[i].dispatching.value].pc != Init
    case _ => false
  }

  /** Some step of the run submits what scheduler `j` has queued. */
  predicate SubmitsDuring(s: State, acts: seq<Action>, j: nat)
    requires Shape(s) && Runs(s, acts)
    decreases |acts|
  {
    acts != [] &&
    (Submits(s, acts[0], j) || (ShapeKept(s, acts[0]); SubmitsDuring(Next(s, acts[0]), acts[1..], j)))
  }

  /** A queued message stays queued unless the step submits it, and then it is posted. */
  lemma QueuedStep(s: State, a: Action, j: nat, t: nat)
    requires Shape(s) && Enabled(s, a) && j < |s.sch| && t in s.sch[j].sq
    ensures var s' := Next(s, a);
            && Shape(s') && |s'.sch| == |s.sch| && t < |s'.sch|
            && (if Submits(s, a, j) then Posted(s', t) else t in s'.sch[j].sq)
  {
    ShapeKept(s, a);
  }

  /** Over every run in which scheduler `j` never submits its messages stay where they are. */
  lemma {:induction false} Withheld(s: State, acts: seq<Action>, j: nat, t: nat)
    requires Shape(s) && Runs(s, acts) && j < |s.sch| && t in s.sch[j].sq && !SubmitsDuring(s, acts, j)
    ensures j < |After(s, acts).sch| && t in After(s, acts).sch[j].sq
    decreases |acts|
  {
    hide Next, Enabled, Submits;
    if acts != [] {
      QueuedStep(s, acts[0], j, t);
      Withheld(Next(s, acts[0]), acts[1..], j, t);
    }
  }

  // --- For as long as it stays busy -----------------------------------------------------------

  /** `k` more rounds of the event loop of scheduler 1, each with a batch to run. */
  function Rounds(k: nat): seq<Action> {
    if k == 0 then []
    else
      [BatchDone(1)]
      + ([PollDone(1)] + ([CheckFlag(1)] + ([DrainDone(1)] + ([TakeBatch(1, false)] + Rounds(k - 1)))))
  }

  /** Batches that scheduler 1 takes. */
  function BatchesTaken(acts: seq<Action>): nat {
    if acts == [] then 0 else (if acts[0] == TakeBatch(1, false) then 1 else 0) + BatchesTaken(acts[1..])
  }

  lemma TakesFirst(a: Action, rest: seq<Action>)
    ensures BatchesTaken([a] + rest) == (if a == TakeBatch(1, false) then 1 else 0) + BatchesTaken(rest)
  {
    assert ([a] + rest)[1..] == rest;
  }

  lemma {:induction false} RoundsTake(k: nat)
    ensures BatchesTaken(Rounds(k)) == k
  {
    hide BatchesTaken;
    if k == 0 {
      NothingTaken();
    } else {
      var e := [TakeBatch(1, false)] + Rounds(k - 1);
      RoundsTake(k - 1);
      TakesFirst(TakeBatch(1, false), Rounds(k - 1));
      TakesFirst(DrainDone(1), e);
      TakesFirst(CheckFlag(1), [DrainDone(1)] + e);
      TakesFirst(PollDone(1), [CheckFlag(1)] + ([DrainDone(1)] + e));
      TakesFirst(BatchDone(1), [PollDone(1)] + ([CheckFlag(1)] + ([DrainDone(1)] + e)));
    }
  }

  lemma NothingTaken()
    ensures BatchesTaken([]) == 0
  {
  }

  /** Scheduler 1 at a program point, with one message for scheduler 0 queued. */
  function Owing(pc: PC): Sched { Sched(pc, 0, None, [0], []) }

  lemma OneRound(capacity: nat)
    ensures var x := Blocked(1);
            var s, s1 := Two(x, Owing(RunBatch), NotStarted, capacity), Two(x, Owing(Poll), NotStarted, capacity);
            var s2, s3 := Two(x, Owing(Top), NotStarted, capacity), Two(x, Owing(Drain(false)), NotStarted, capacity);
            var s4 := Two(x, Owing(Dequeue), NotStarted, capacity);
            && Shape(s) && Shape(s1) && Shape(s2) && Shape(s3) && Shape(s4)
            && Enabled(s, BatchDone(1)) && Next(s, BatchDone(1)) == s1
            && Enabled(s1, PollDone(1)) && Next(s1, PollDone(1)) == s2
            && Enabled(s2, CheckFlag(1)) && Next(s2, CheckFlag(1)) == s3
            && Enabled(s3, DrainDone(1)) && Next(s3, DrainDone(1)) == s4
            && Enabled(s4, TakeBatch(1, false)) && Next(s4, TakeBatch(1, false)) == s
  {
  }

  lemma {:induction false} StaysBusy(k: nat, capacity: nat)
    ensures Path(Two(Blocked(1), Owing(RunBatch), NotStarted, capacity), Rounds(k),
                 Two(Blocked(1), Owing(RunBatch), NotStarted, capacity))
  {
    var x := Blocked(1);
    var s, s1 := Two(x, Owing(RunBatch), NotStarted, capacity), Two(x, Owing(Poll), NotStarted, capacity);
    var s2, s3 := Two(x, Owing(Top), NotStarted, capacity), Two(x, Owing(Drain(false)), NotStarted, capacity);
    var s4 := Two(x, Owing(Dequeue), NotStarted, capacity);
    OneRound(capacity);
    hide Next, Enabled, Two, Shape;
    if k == 0 {
      Stay(s);
    } else {
      StaysBusy(k - 1, capacity);
      hide Path;
      var e := [TakeBatch(1, false)] + Rounds(k - 1);
      Go(s4, TakeBatch(1, false), s, Rounds(k - 1), s);
      Go(s3, DrainDone(1), s4, e, s);
      Go(s2, CheckFlag(1), s3, [DrainDone(1)] + e, s);
      Go(s1, PollDone(1), s2, [CheckFlag(1)] + ([DrainDone(1)] + e), s);
      Go(s, BatchDone(1), s1, [PollDone(1)] + ([CheckFlag(1)] + ([DrainDone(1)] + e)), s);
    }
  }

  /** Before `stop`, for every number of batches and every capacity: scheduler 0 is blocked on a nonempty
      inbox while scheduler 1, which pushed the task, runs that many batches without submitting the
      message. */
  lemma BlockedThroughout(k: nat, capacity: nat) returns (before: seq<Action>, during: seq<Action>)
    requires capacity > 0
    ensures Path(Initial(2, 0, capacity), before, Two(Blocked(1), Owing(RunBatch), NotStarted, capacity))
    ensures BatchesTaken(during) == k
    ensures Runs(Initial(2, 0, capacity), before + during)
    ensures var s := After(Initial(2, 0, capacity), before + during);
            && s.running && |s.sch| == |s.flight| == 2
            && s.sch[0].pc == Wait(true) && s.sch[0].inbox > 0 && s.sch[0].cq == [] && s.flight[0] == 0
            && s.sch[1].sq == [0]
  {
    var a := [Enter(0)] + ([CheckFlag(0)] + ([DrainDone(0)] + ([TakeBatch(0, true)] + ([SubmitAll(0, true)] + []))));
    var b := [Enter(1)] + ([CheckFlag(1)] + ([DrainDone(1)] + ([TakeBatch(1, false)] + [])));
    var s0, s1 := Two(At(Init), At(Init), NotStarted, capacity), Two(At(Wait(true)), At(Init), NotStarted, capacity);
    var s2 := Two(Blocked(0), Sender(None, 0), NotStarted, capacity);
    var s3 := Two(Blocked(1), Sender(None, 1), NotStarted, capacity);
    assert Initial(2, 0, capacity) == s0;
    assert Sender(None, 1) == Owing(RunBatch);
    FirstBlocks(capacity);
    SecondRuns(capacity);
    SentAll(1, 0, capacity);
    StaysBusy(k, capacity);
    RoundsTake(k);
    before, during := a + (b + Send(1)), Rounds(k);
    hide Next, Enabled, Rounds, Send;
    Then(s1, b, s2, Send(1), s3);
    Then(s0, a, s1, b + Send(1), s3);
    Then(s0, before, s3, during, s3);
  }
}
