/**
 Two families of runs, for every inbox capacity, in which the push of `stop` is refused and its target
 can block for good.
 */
module StopRuns {
  import opened Basics
  import opened Wakeup
  import opened Paths
  import opened StopHangs

  // --- An inbox filled before the ring exists -----------------------------------------------

  function One(pc: PC, inbox: nat, ext: Thread, stopper: Stopper, capacity: nat): State {
    State([Sched(pc, inbox, None, [], [])], [ext], [0], stopper == NotStarted, stopper, [false], capacity)
  }

  function Fill(k: nat): seq<Action> {
    if k == 0 then [] else [ExtPush(0, 0)] + ([ExtRead(0)] + Fill(k - 1))
  }

  /** Before the ring exists dispatches are not announced. */
  lemma {:induction false} Filled(inbox: nat, k: nat, capacity: nat)
    requires inbox + k <= capacity
    ensures Path(One(Init, inbox, Idle, NotStarted, capacity), Fill(k),
                 One(Init, inbox + k, Idle, NotStarted, capacity))
    decreases k
  {
    var s := One(Init, inbox, Idle, NotStarted, capacity);
    if k == 0 {
      Stay(s);
    } else {
      var s' := One(Init, inbox + k, Idle, NotStarted, capacity);
      var s1 := One(Init, inbox + 1, Pushed(0), NotStarted, capacity);
      var s2 := One(Init, inbox + 1, Idle, NotStarted, capacity);
      assert Next(s, ExtPush(0, 0)) == s1 && Next(s1, ExtRead(0)) == s2;
      Filled(inbox + 1, k - 1, capacity);
      hide Path, Next;
      Go(s1, ExtRead(0), s2, Fill(k - 1), s');
      Go(s, ExtPush(0, 0), s1, [ExtRead(0)] + Fill(k - 1), s');
    }
  }

  lemma EntersLoop(capacity: nat)
    ensures var s := One(Init, capacity, Idle, NotStarted, capacity);
            var s1 := One(Top, capacity, Idle, NotStarted, capacity);
            && Shape(s) && Enabled(s, Enter(0)) && Next(s, Enter(0)) == s1
            && Shape(s1) && Enabled(s1, CheckFlag(0))
            && Next(s1, CheckFlag(0)) == One(Drain(false), capacity, Idle, NotStarted, capacity)
  {
  }

  lemma StopRefused(capacity: nat)
    ensures var s2 := One(Drain(false), capacity, Idle, NotStarted, capacity);
            var s3 := One(Drain(false), capacity, Idle, Visiting(0, Idle), capacity);
            && Shape(s2) && Enabled(s2, StopBegin) && Next(s2, StopBegin) == s3
            && Shape(s3) && Enabled(s3, StopPush)
            && Next(s3, StopPush) == One(Drain(false), capacity, Idle, Visiting(1, Idle), capacity)
            && Shape(Next(s3, StopPush))
  {
  }

  lemma RefusedFull(capacity: nat)
    ensures Path(One(Init, capacity, Idle, NotStarted, capacity),
                 [Enter(0)] + ([CheckFlag(0)] + ([StopBegin] + ([StopPush] + []))),
                 One(Drain(false), capacity, Idle, Visiting(1, Idle), capacity))
  {
    var s := One(Init, capacity, Idle, NotStarted, capacity);
    var s1 := One(Top, capacity, Idle, NotStarted, capacity);
    var s2 := One(Drain(false), capacity, Idle, NotStarted, capacity);
    var s3 := One(Drain(false), capacity, Idle, Visiting(0, Idle), capacity);
    var s4 := One(Drain(false), capacity, Idle, Visiting(1, Idle), capacity);
    EntersLoop(capacity);
    StopRefused(capacity);
    hide *;
    Stay(s4);
    Go(s3, StopPush, s4, [], s4);
    Go(s2, StopBegin, s3, [StopPush] + [], s4);
    Go(s1, CheckFlag(0), s2, [StopBegin] + ([StopPush] + []), s4);
    Go(s, Enter(0), s1, [CheckFlag(0)] + ([StopBegin] + ([StopPush] + [])), s4);
  }

  /** The inbox is filled before the ring exists, the scheduler passes its test of the flag, `stop`
      finds the inbox full: the scheduler can run the tasks and block for good. */
  lemma RefusedBeforeRing(capacity: nat) returns (acts: seq<Action>)
    ensures Runs(Initial(1, 1, capacity), acts)
    ensures var s := After(Initial(1, 1, capacity), acts);
            && |s.sch| == 1 && s.sch[0].pc == Drain(false) && Visited(s, 0) && !s.sent[0] && CanHang(s, 0)
  {
    var s := One(Drain(false), capacity, Idle, Visiting(1, Idle), capacity);
    var tail := [Enter(0)] + ([CheckFlag(0)] + ([StopBegin] + ([StopPush] + [])));
    assert Initial(1, 1, capacity) == One(Init, 0, Idle, NotStarted, capacity);
    Filled(0, capacity, capacity);
    RefusedFull(capacity);
    acts := Fill(capacity) + tail;
    NotSavedBeforeRing(capacity);
    InitialInv(1, 1, capacity);
    hide Inv, One, CanHang, Saved;
    Then(Initial(1, 1, capacity), Fill(capacity), One(Init, capacity, Idle, NotStarted, capacity), tail, s);
    AfterInv(Initial(1, 1, capacity), acts);
    HangsIffNotSaved(s, 0);
  }

  lemma NotSavedBeforeRing(capacity: nat)
    ensures var s := One(Drain(false), capacity, Idle, Visiting(1, Idle), capacity);
            && Shape(s) && |s.sch| == 1 && s.sch[0].pc == Drain(false) && Visited(s, 0) && !s.sent[0]
            && !Saved(s, 0)
  {
  }

  // --- A message abandoned by a scheduler that leaves ----------------------------------------

  function Two(x: Sched, y: Sched, stopper: Stopper, capacity: nat): State {
    State([x, y], [], [0, 0], stopper == NotStarted, stopper, [false, false], capacity)
  }

  /** A scheduler with an empty inbox that owes nothing. */
  function At(pc: PC): Sched { Sched(pc, 0, None, [], []) }

  function Blocked(inbox: nat): Sched { Sched(Wait(true), inbox, None, [], []) }

  function Sender(d: Option<nat>, k: nat): Sched { Sched(RunBatch, 0, d, seq(k, _ => 0), []) }

  lemma FirstBlocks(capacity: nat)
    ensures Path(Two(At(Init), At(Init), NotStarted, capacity),
                 [Enter(0)]
                 + ([CheckFlag(0)] + ([DrainDone(0)] + ([TakeBatch(0, true)] + ([SubmitAll(0, true)] + [])))),
                 Two(At(Wait(true)), At(Init), NotStarted, capacity))
  {
    var s := Two(At(Init), At(Init), NotStarted, capacity);
    var s1 := Two(At(Top), At(Init), NotStarted, capacity);
    var s2 := Two(At(Drain(false)), At(Init), NotStarted, capacity);
    var s3 := Two(At(Dequeue), At(Init), NotStarted, capacity);
    var s4 := Two(At(Submit), At(Init), NotStarted, capacity);
    var s5 := Two(At(Wait(true)), At(Init), NotStarted, capacity);
    assert Next(s, Enter(0)) == s1 && Next(s1, CheckFlag(0)) == s2 && Next(s2, DrainDone(0)) == s3;
    assert Next(s3, TakeBatch(0, true)) == s4 && Next(s4, SubmitAll(0, true)) == s5;
    hide Path, Next;
    Stay(s5);
    Go(s4, SubmitAll(0, true), s5, [], s5);
    Go(s3, TakeBatch(0, true), s4, [SubmitAll(0, true)] + [], s5);
    Go(s2, DrainDone(0), s3, [TakeBatch(0, true)] + ([SubmitAll(0, true)] + []), s5);
    Go(s1, CheckFlag(0), s2, [DrainDone(0)] + ([TakeBatch(0, true)] + ([SubmitAll(0, true)] + [])), s5);
    Go(s, Enter(0), s1,
       [CheckFlag(0)] + ([DrainDone(0)] + ([TakeBatch(0, true)] + ([SubmitAll(0, true)] + []))), s5);
  }

  lemma SecondRuns(capacity: nat)
    ensures Path(Two(At(Wait(true)), At(Init), NotStarted, capacity),
                 [Enter(1)] + ([CheckFlag(1)] + ([DrainDone(1)] + ([TakeBatch(1, false)] + []))),
                 Two(Blocked(0), Sender(None, 0), NotStarted, capacity))
  {
    var s := Two(At(Wait(true)), At(Init), NotStarted, capacity);
    var s1 := Two(At(Wait(true)), At(Top), NotStarted, capacity);
    var s2 := Two(At(Wait(true)), At(Drain(false)), NotStarted, capacity);
    var s3 := Two(At(Wait(true)), At(Dequeue), NotStarted, capacity);
    var s4 := Two(Blocked(0), Sender(None, 0), NotStarted, capacity);
    assert Next(s, Enter(1)) == s1 && Next(s1, CheckFlag(1)) == s2 && Next(s2, DrainDone(1)) == s3;
    assert Sender(None, 0).sq == [];
    assert Next(s3, TakeBatch(1, false)) == s4;
    hide Path, Next;
    Stay(s4);
    Go(s3, TakeBatch(1, false), s4, [], s4);
    Go(s2, DrainDone(1), s3, [TakeBatch(1, false)] + [], s4);
    Go(s1, CheckFlag(1), s2, [DrainDone(1)] + ([TakeBatch(1, false)] + []), s4);
    Go(s, Enter(1), s1, [CheckFlag(1)] + ([DrainDone(1)] + ([TakeBatch(1, false)] + [])), s4);
  }

  function Send(k: nat): seq<Action> {
    if k == 0 then [] else [SchedPush(1, 0)] + ([SchedNotify(1, false)] + Send(k - 1))
  }

  lemma OneSent(sent: nat, capacity: nat)
    requires sent < capacity
    ensures var s := Two(Blocked(sent), Sender(None, sent), NotStarted, capacity);
            var s1 := Two(Blocked(sent + 1), Sender(Some(0), sent), NotStarted, capacity);
            && Shape(s) && Enabled(s, SchedPush(1, 0)) && Next(s, SchedPush(1, 0)) == s1
            && Shape(s1) && Enabled(s1, SchedNotify(1, false))
            && Next(s1, SchedNotify(1, false)) == Two(Blocked(sent + 1), Sender(None, sent + 1), NotStarted, capacity)
  {
    assert seq(sent, _ => 0) + [0] == seq(sent + 1, _ => 0);
  }

  /** Every dispatch leaves one more message on the sender's own submission queue. */
  lemma {:induction false} SentAll(k: nat, sent: nat, capacity: nat)
    requires sent + k <= capacity
    ensures Path(Two(Blocked(sent), Sender(None, sent), NotStarted, capacity), Send(k),
                 Two(Blocked(sent + k), Sender(None, sent + k), NotStarted, capacity))
    decreases k
  {
    var s := Two(Blocked(sent), Sender(None, sent), NotStarted, capacity);
    if k == 0 {
      Stay(s);
    } else {
      var s' := Two(Blocked(sent + k), Sender(None, sent + k), NotStarted, capacity);
      var s1 := Two(Blocked(sent + 1), Sender(Some(0), sent), NotStarted, capacity);
      var s2 := Two(Blocked(sent + 1), Sender(None, sent + 1), NotStarted, capacity);
      OneSent(sent, capacity);
      hide Two, Shape, Enabled;
      SentAll(k - 1, sent + 1, capacity);
      hide Path, Next;
      Go(s1, SchedNotify(1, false), s2, Send(k - 1), s');
      Go(s, SchedPush(1, 0), s1, [SchedNotify(1, false)] + Send(k - 1), s');
    }
  }

  lemma RefusedBlocked(capacity: nat)
    ensures Path(Two(Blocked(capacity), Sender(None, capacity), NotStarted, capacity),
                 [StopBegin] + ([StopPush] + []),
                 Two(Blocked(capacity), Sender(None, capacity), Visiting(1, Idle), capacity))
  {
    var x, y := Blocked(capacity), Sender(None, capacity);
    var s, s1 := Two(x, y, NotStarted, capacity), Two(x, y, Visiting(0, Idle), capacity);
    var s2 := Two(x, y, Visiting(1, Idle), capacity);
    assert Next(s, StopBegin) == s1 && Next(s1, StopPush) == s2;
    hide Path, Next;
    Stay(s2);
    Go(s1, StopPush, s2, [], s2);
    Go(s, StopBegin, s1, [StopPush] + [], s2);
  }

  lemma NotSavedBlocked(capacity: nat)
    ensures var s := Two(Blocked(capacity), Sender(None, capacity), Visiting(1, Idle), capacity);
            && Shape(s) && |s.sch| == 2 && s.sch[0].pc == Wait(true) && s.sch[0].inbox == capacity
            && Visited(s, 0) && !s.sent[0] && !Saved(s, 0)
  {
  }

  /** Scheduler 0 has blocked, with its ring in place.  Scheduler 1 fills its inbox and still has the
      messages on its own submission queue when `stop` finds that inbox full: scheduler 1 can leave
      without submitting them, and then nothing wakes scheduler 0. */
  lemma RefusedWhileBlocked(capacity: nat) returns (acts: seq<Action>)
    ensures Runs(Initial(2, 0, capacity), acts)
    ensures var s := After(Initial(2, 0, capacity), acts);
            && |s.sch| == 2 && s.sch[0].pc == Wait(true) && s.sch[0].inbox == capacity
            && Visited(s, 0) && !s.sent[0] && CanHang(s, 0)
  {
    var a := [Enter(0)] + ([CheckFlag(0)] + ([DrainDone(0)] + ([TakeBatch(0, true)] + ([SubmitAll(0, true)] + []))));
    var b := [Enter(1)] + ([CheckFlag(1)] + ([DrainDone(1)] + ([TakeBatch(1, false)] + [])));
    var c, d := Send(capacity), [StopBegin] + ([StopPush] + []);
    var s0, s1 := Two(At(Init), At(Init), NotStarted, capacity), Two(At(Wait(true)), At(Init), NotStarted, capacity);
    var s2 := Two(Blocked(0), Sender(None, 0), NotStarted, capacity);
    var s3 := Two(Blocked(capacity), Sender(None, capacity), NotStarted, capacity);
    var s := Two(Blocked(capacity), Sender(None, capacity), Visiting(1, Idle), capacity);
    assert Initial(2, 0, capacity) == s0;
    FirstBlocks(capacity);
    SecondRuns(capacity);
    SentAll(capacity, 0, capacity);
    RefusedBlocked(capacity);
    NotSavedBlocked(capacity);
    InitialInv(2, 0, capacity);
    hide Inv, Two, CanHang, Saved;
    acts := a + (b + (c + d));
    Then(s2, c, s3, d, s);
    Then(s1, b, s2, c + d, s);
    Then(s0, a, s1, b + (c + d), s);
    AfterInv(s0, acts);
    HangsIffNotSaved(s, 0);
  }
}
