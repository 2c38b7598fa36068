/**
 Cross-scheduler dispatch, wake-up and stop as a transition system over any number of
 schedulers and external dispatcher threads.

 A dispatch pushes into the target's inbox, reads the target's ring descriptor, and posts a
 `msg_ring` message: an external thread submits it at once, a scheduler only queues it on its
 own submission queue.  A submitted message is delivered later as a completion entry.  The
 contents of inboxes and ready queues are abstracted to counts and to arbitrary choices.
 `sent` is history: it records to which schedulers the push of `stop` succeeded.
 */
module Wakeup {

  import opened Basics

  datatype Cqe = InboxCqe | OtherCqe

  datatype PC =
    | Init                       // before the event loop; no ring descriptor yet
    | Top                        // head of the loop: about to test is_running_
    | Drain(inPoll: bool)        // process_inbox, from the loop or from poll
    | Dequeue                    // about to take a batch
    | RunBatch                   // resuming the handles of a batch
    | Submit                     // batch was empty: about to submit
    | Wait(untimed: bool)        // blocked in process_io_events
    | Poll                       // walking the completion queue
    | Done                       // left the loop

  /** One scheduler: program counter, inbox length, the target of a dispatch that has pushed but
      not yet notified, unsubmitted messages, and unread completions. */
  datatype Sched = Sched(pc: PC, inbox: nat, dispatching: Option<nat>, sq: seq<nat>, cq: seq<Cqe>)

  /** An external thread between the steps of `dispatch_on`. */
  datatype Thread = Idle | Pushed(target: nat) | Notifying(target: nat)

  /** The thread that calls `stop`: not started, visiting scheduler `next`, or joining. */
  datatype Stopper = NotStarted | Visiting(next: nat, at: Thread)

  datatype State = State(
    sch: seq<Sched>,
    ext: seq<Thread>,
    flight: seq<nat>,            // submitted messages not yet delivered, by target
    running: bool,
    stopper: Stopper,
    sent: seq<bool>,
    capacity: nat)

  datatype Action =
    | Enter(i: nat)
    | CheckFlag(i: nat)
    | PopInbox(i: nat)
    | DrainDone(i: nat)
    | TakeBatch(i: nat, empty: bool)
    | BatchDone(i: nat)
    | SubmitAll(i: nat, untimed: bool)
    | Wake(i: nat)
    | Interrupted(i: nat)
    | TakeCqe(i: nat)
    | PollDone(i: nat)
    | SchedPush(i: nat, target: nat)
    | SchedNotify(i: nat, full: bool)
    | ExtPush(d: nat, target: nat)
    | ExtRead(d: nat)
    | ExtSubmit(d: nat)
    | Deliver(target: nat)
    | Complete(i: nat)           // some other completion arrives
    | StopBegin
    | StopPush
    | StopRead
    | StopSubmit

  function Initial(n: nat, dispatchers: nat, capacity: nat): State {
    State(seq(n, _ => Sched(Init, 0, None, [], [])), seq(dispatchers, _ => Idle), seq(n, _ => 0), true,
          NotStarted, seq(n, _ => false), capacity)
  }

  // --- Transitions ------------------------------------------------------------------------

  predicate Shape(s: State) {
    |s.flight| == |s.sent| == |s.sch|
    && (forall j, k :: 0 <= j < |s.sch| && 0 <= k < |s.sch[j].sq| ==> s.sch[j].sq[k] < |s.sch|)
  }

  /** Program points at which user code runs and may dispatch. */
  predicate UserCode(p: PC) { p.Drain? || p.RunBatch? || p.Poll? }

  predicate Quiet(s: State, i: nat) { i < |s.sch| && s.sch[i].dispatching == None }

  predicate Enabled(s: State, a: Action)
    requires Shape(s)
  {
    match a
    case Enter(i) => i < |s.sch| && s.sch[i].pc == Init
    case CheckFlag(i) => i < |s.sch| && s.sch[i].pc == Top
    case PopInbox(i) => Quiet(s, i) && s.sch[i].pc.Drain? && s.sch[i].inbox > 0
    case DrainDone(i) => Quiet(s, i) && s.sch[i].pc.Drain? && s.sch[i].inbox == 0
    case TakeBatch(i, _) => i < |s.sch| && s.sch[i].pc == Dequeue
    case BatchDone(i) => Quiet(s, i) && s.sch[i].pc == RunBatch
    case SubmitAll(i, _) => i < |s.sch| && s.sch[i].pc == Submit
    case Wake(i) => i < |s.sch| && s.sch[i].pc.Wait? && (s.sch[i].cq != [] || !s.sch[i].pc.untimed)
    case Interrupted(i) => i < |s.sch| && s.sch[i].pc.Wait?
    case TakeCqe(i) => Quiet(s, i) && s.sch[i].pc == Poll && s.sch[i].cq != []
    case PollDone(i) => Quiet(s, i) && s.sch[i].pc == Poll && s.sch[i].cq == []
    case SchedPush(i, t) => Quiet(s, i) && UserCode(s.sch[i].pc) && t < |s.sch|
    case SchedNotify(i, _) => i < |s.sch| && s.sch[i].dispatching.Some? && s.sch[i].dispatching.value < |s.sch|
    case ExtPush(d, t) => d < |s.ext| && s.ext[d] == Idle && t < |s.sch|
    case ExtRead(d) => d < |s.ext| && s.ext[d].Pushed? && s.ext[d].target < |s.sch|
    case ExtSubmit(d) => d < |s.ext| && s.ext[d].Notifying? && s.ext[d].target < |s.sch|
    case Deliver(t) => t < |s.sch| && s.flight[t] > 0
    case Complete(i) => i < |s.sch|
    case StopBegin => s.stopper == NotStarted
    case StopPush => s.stopper.Visiting? && s.stopper.at == Idle && s.stopper.next < |s.sch|
    case StopRead => s.stopper.Visiting? && s.stopper.at.Pushed? && s.stopper.at.target < |s.sch|
    case StopSubmit => s.stopper.Visiting? && s.stopper.at.Notifying? && s.stopper.at.target < |s.sch|
  }

  function SetPc(s: State, i: nat, p: PC): State
    requires i < |s.sch|
  {
    s.(sch := s.sch[i := s.sch[i].(pc := p)])
  }

  /** Adds one submitted message per entry of a submission queue. */
  function Launch(flight: seq<nat>, sq: seq<nat>): (f: seq<nat>)
    requires forall k :: 0 <= k < |sq| ==> sq[k] < |flight|
    ensures |f| == |flight|
    ensures forall t :: 0 <= t < |flight| ==> f[t] >= flight[t] && (t in sq ==> f[t] > 0)
    decreases |sq|
  {
    if sq == [] then flight else
    var f := Launch(flight, sq[1..]);
    f[sq[0] := f[sq[0]] + 1]
  }

  /** One push into an inbox; a full inbox refuses it. */
  function PushTo(s: State, t: nat): State
    requires t < |s.sch|
  {
    s.(sch := s.sch[t := s.sch[t].(inbox := s.sch[t].inbox + 1)])
  }

  function Next(s: State, a: Action): State
    requires Shape(s) && Enabled(s, a)
  {
    match a
    case Enter(i) => SetPc(s, i, Top)
    case CheckFlag(i) => SetPc(s, i, if s.running then Drain(false) else Done)
    case PopInbox(i) => s.(sch := s.sch[i := s.sch[i].(inbox := s.sch[i].inbox - 1)])
    case DrainDone(i) => SetPc(s, i, if s.sch[i].pc.inPoll then Poll else Dequeue)
    case TakeBatch(i, empty) => SetPc(s, i, if empty then Submit else RunBatch)
    case BatchDone(i) => SetPc(s, i, Poll)
    case SubmitAll(i, untimed) =>
      s.(sch := s.sch[i := s.sch[i].(pc := Wait(untimed), sq := [])], flight := Launch(s.flight, s.sch[i].sq))
    case Wake(i) => SetPc(s, i, Poll)
    case Interrupted(i) => SetPc(s, i, Top)
    case TakeCqe(i) =>
      s.(sch := s.sch[i := s.sch[i].(pc := if s.sch[i].cq[0] == InboxCqe then Drain(true) else Poll,
                                     cq := s.sch[i].cq[1..])])
    case PollDone(i) => SetPc(s, i, Top)
    case SchedPush(i, t) =>
      if s.sch[t].inbox >= s.capacity then s else
      var s1 := PushTo(s, t);
      s1.(sch := s1.sch[i := s1.sch[i].(dispatching := Some(t))])
    case SchedNotify(i, full) =>
      var t := s.sch[i].dispatching.value;
      if s.sch[t].pc == Init then s.(sch := s.sch[i := s.sch[i].(dispatching := None)])
      else if full then
        s.(sch := s.sch[i := s.sch[i].(dispatching := None, sq := [t])], flight := Launch(s.flight, s.sch[i].sq))
      else s.(sch := s.sch[i := s.sch[i].(dispatching := None, sq := s.sch[i].sq + [t])])
    case ExtPush(d, t) =>
      if s.sch[t].inbox >= s.capacity then s else PushTo(s, t).(ext := s.ext[d := Pushed(t)])
    case ExtRead(d) =>
      s.(ext := s.ext[d := if s.sch[s.ext[d].target].pc == Init then Idle else Notifying(s.ext[d].target)])
    case ExtSubmit(d) =>
      s.(ext := s.ext[d := Idle], flight := s.flight[s.ext[d].target := s.flight[s.ext[d].target] + 1])
    case Deliver(t) =>
      s.(flight := s.flight[t := s.flight[t] - 1], sch := s.sch[t := s.sch[t].(cq := s.sch[t].cq + [InboxCqe])])
    case Complete(i) => s.(sch := s.sch[i := s.sch[i].(cq := s.sch[i].cq + [OtherCqe])])
    case StopBegin => s.(running := false, stopper := Visiting(0, Idle))
    case StopPush =>
      var t := s.stopper.next;
      if s.sch[t].inbox >= s.capacity then s.(stopper := Visiting(t + 1, Idle))
      else PushTo(s, t).(stopper := Visiting(t, Pushed(t)), sent := s.sent[t := true])
    case StopRead =>
      var t := s.stopper.at.target;
      s.(stopper := if s.sch[t].pc == Init then Visiting(s.stopper.next + 1, Idle)
                    else Visiting(s.stopper.next, Notifying(t)))
    case StopSubmit =>
      var t := s.stopper.at.target;
      s.(stopper := Visiting(s.stopper.next + 1, Idle), flight := s.flight[t := s.flight[t] + 1])
  }

  lemma ShapeKept(s: State, a: Action)
    requires Shape(s) && Enabled(s, a)
    ensures Shape(Next(s, a)) && |Next(s, a).sch| == |s.sch|
  {
    if a.SchedNotify? {
      NotifyShape(s, a.i, a.full);
    }
  }

  lemma NotifyShape(s: State, i: nat, full: bool)
    requires Shape(s) && Enabled(s, SchedNotify(i, full))
    ensures Shape(Next(s, SchedNotify(i, full)))
  {
    var s' := Next(s, SchedNotify(i, full));
    forall j, k | 0 <= j < |s'.sch| && 0 <= k < |s'.sch[j].sq|
      ensures s'.sch[j].sq[k] < |s'.sch|
    {
      if j == i && k < |s.sch[i].sq| { assert s.sch[i].sq[k] < |s.sch|; }
    }
  }

  /** The states of a run that starts with `n` schedulers and takes the given actions. */
  predicate Runs(s: State, acts: seq<Action>)
    requires Shape(s)
    decreases |acts|
  {
    acts == [] ||
    (Enabled(s, acts[0]) && (ShapeKept(s, acts[0]); Runs(Next(s, acts[0]), acts[1..])))
  }

  function After(s: State, acts: seq<Action>): (s': State)
    requires Shape(s) && Runs(s, acts)
    ensures Shape(s')
    decreases |acts|
  {
    if acts == [] then s else
    ShapeKept(s, acts[0]);
    After(Next(s, acts[0]), acts[1..])
  }

  // --- Outstanding wake-ups -----------------------------------------------------------------

  /** Dispatcher `d` has pushed for `t` but not yet submitted its message. */
  predicate ThreadOwes(at: Thread, t: nat) { at == Pushed(t) || at == Notifying(t) }

  predicate SchedOwes(x: Sched, t: nat) { x.dispatching == Some(t) || t in x.sq }

  predicate StopOwes(s: State, t: nat) { s.stopper.Visiting? && ThreadOwes(s.stopper.at, t) }

  /** A message for `t` has been submitted and its completion is still to be read. */
  predicate Posted(s: State, t: nat)
    requires t < |s.sch| == |s.flight|
  {
    s.flight[t] > 0 || InboxCqe in s.sch[t].cq
  }

  ghost predicate WakeupDue(s: State, t: nat)
    requires t < |s.sch| == |s.flight|
  {
    || Posted(s, t)
    || StopOwes(s, t)
    || (exists d :: 0 <= d < |s.ext| && ThreadOwes(s.ext[d], t))
    || (exists j :: 0 <= j < |s.sch| && SchedOwes(s.sch[j], t))
  }

  /** The scheduler will look at its inbox before it can block, or has left the loop. */
  predicate LooksFirst(p: PC) { p.Init? || p.Top? || p.Drain? || p.Done? }

  /** The scheduler will test the flag before it can block, or has left the loop. */
  predicate ChecksFirst(p: PC) { p.Init? || p.Top? || p.RunBatch? || p.Poll? || p == Drain(true) || p.Done? }

  ghost predicate InboxInv(s: State)
    requires Shape(s)
  {
    forall t :: 0 <= t < |s.sch| ==> (s.sch[t].inbox > 0 ==> LooksFirst(s.sch[t].pc) || WakeupDue(s, t))
  }

  ghost predicate QuietInv(s: State) {
    && (forall i :: 0 <= i < |s.sch| ==> (s.sch[i].pc.Wait? ==> s.sch[i].sq == []))
    && (forall i :: 0 <= i < |s.sch| ==> (s.sch[i].dispatching.Some? ==>
          UserCode(s.sch[i].pc) && s.sch[i].dispatching.value < |s.sch|))
    && (forall d :: 0 <= d < |s.ext| && !s.ext[d].Idle? ==> s.ext[d].target < |s.sch|)
    && (s.stopper.Visiting? && !s.stopper.at.Idle? ==> s.stopper.at.target == s.stopper.next < |s.sch|)
    && (s.running <==> s.stopper == NotStarted)
    && (s.running ==> forall i :: 0 <= i < |s.sch| ==> s.sch[i].pc != Done)
  }

  ghost predicate StopInv(s: State)
    requires Shape(s)
  {
    forall t :: 0 <= t < |s.sch| && s.sent[t] ==>
      !s.running && (ChecksFirst(s.sch[t].pc) || Posted(s, t) || StopOwes(s, t))
  }

  ghost predicate Inv(s: State) {
    Shape(s) && InboxInv(s) && QuietInv(s) && StopInv(s)
  }

  // --- Every transition keeps the invariant ---------------------------------------------------

  lemma InitialInv(n: nat, dispatchers: nat, capacity: nat)
    ensures Inv(Initial(n, dispatchers, capacity))
  {
  }

  /** A wake-up stays due when every party that owed it still does, or has posted it. */
  lemma StillDue(s: State, s': State, t: nat)
    requires Shape(s) && Shape(s') && t < |s.sch| == |s'.sch| && WakeupDue(s, t)
    requires Posted(s, t) ==> Posted(s', t)
    requires StopOwes(s, t) ==> WakeupDue(s', t)
    requires forall d :: 0 <= d < |s.ext| && ThreadOwes(s.ext[d], t) ==> WakeupDue(s', t)
    requires forall j :: 0 <= j < |s.sch| && SchedOwes(s.sch[j], t) ==> WakeupDue(s', t)
    ensures WakeupDue(s', t)
  {
    hide WakeupDue;
    DueCases(s, t);
    if Posted(s, t) { PostedIsDue(s', t); }
  }

  lemma DueCases(s: State, t: nat)
    requires t < |s.sch| == |s.flight| && WakeupDue(s, t)
    ensures Posted(s, t) || StopOwes(s, t)
         || (exists d :: 0 <= d < |s.ext| && ThreadOwes(s.ext[d], t))
         || (exists j :: 0 <= j < |s.sch| && SchedOwes(s.sch[j], t))
  {
  }

  lemma PostedIsDue(s: State, t: nat)
    requires t < |s.sch| == |s.flight| && Posted(s, t)
    ensures WakeupDue(s, t)
  {
  }

  /** Changes of one scheduler that leave its debts and completions alone. */
  lemma LocalStep(s: State, i: nat, x: Sched)
    requires Inv(s) && i < |s.sch|
    requires x.sq == s.sch[i].sq && x.dispatching == s.sch[i].dispatching && x.cq == s.sch[i].cq
    requires x.inbox <= s.sch[i].inbox
    requires LooksFirst(s.sch[i].pc) && !LooksFirst(x.pc) ==> x.inbox == 0
    requires !s.running && ChecksFirst(s.sch[i].pc) ==> ChecksFirst(x.pc)
    requires x.pc.Wait? ==> x.sq == []
    requires x.dispatching.Some? ==> UserCode(x.pc)
    requires s.running ==> x.pc != Done
    ensures Inv(s.(sch := s.sch[i := x]))
  {
    var s' := s.(sch := s.sch[i := x]);
    forall t | 0 <= t < |s'.sch| && s'.sch[t].inbox > 0
      ensures LooksFirst(s'.sch[t].pc) || WakeupDue(s', t)
    {
      if WakeupDue(s, t) { SameDebts(s, s', t); }
    }
  }

  lemma SameDebts(s: State, s': State, t: nat)
    requires Shape(s) && Shape(s') && t < |s.sch| == |s'.sch| && WakeupDue(s, t)
    requires s'.ext == s.ext && s'.flight == s.flight && s'.stopper == s.stopper
    requires forall j :: 0 <= j < |s.sch| ==>
               s'.sch[j].sq == s.sch[j].sq && s'.sch[j].dispatching == s.sch[j].dispatching
                && s'.sch[j].cq == s.sch[j].cq
    ensures WakeupDue(s', t)
  {
    if d :| 0 <= d < |s.ext| && ThreadOwes(s.ext[d], t) {
    } else if j :| 0 <= j < |s.sch| && SchedOwes(s.sch[j], t) {
      assert SchedOwes(s'.sch[j], t);
    }
  }

  lemma SubmitAllInv(s: State, i: nat, untimed: bool)
    requires Inv(s) && Enabled(s, SubmitAll(i, untimed))
    ensures Inv(Next(s, SubmitAll(i, untimed)))
    ensures var s' := Next(s, SubmitAll(i, untimed));
            s'.sch[i].sq == [] && forall t :: t in s.sch[i].sq ==> t < |s'.sch| && Posted(s', t)
  {
    var s' := Next(s, SubmitAll(i, untimed));
    forall t | 0 <= t < |s'.sch| && s'.sch[t].inbox > 0
      ensures LooksFirst(s'.sch[t].pc) || WakeupDue(s', t)
    {
      if WakeupDue(s, t) {
        forall j | 0 <= j < |s.sch| && SchedOwes(s.sch[j], t)
          ensures WakeupDue(s', t)
        {
          if j == i { assert Posted(s', t); } else { assert SchedOwes(s'.sch[j], t); }
        }
        StillDue(s, s', t);
      }
    }
  }

  lemma TakeCqeInv(s: State, i: nat)
    requires Inv(s) && Enabled(s, TakeCqe(i))
    ensures var s' := Next(s, TakeCqe(i));
            && Inv(s')
            && (s.sch[i].cq[0] == InboxCqe ==> LooksFirst(s'.sch[i].pc) && ChecksFirst(s'.sch[i].pc))
            && (s.sch[i].cq[0] == OtherCqe ==> s'.sch[i].pc == Poll && (Posted(s, i) ==> Posted(s', i)))
            && s.sch[i].cq == [s.sch[i].cq[0]] + s'.sch[i].cq
  {
    var s' := Next(s, TakeCqe(i));
    var cq := s.sch[i].cq;
    assert cq == [cq[0]] + cq[1..];
    forall t | 0 <= t < |s'.sch| && s'.sch[t].inbox > 0
      ensures LooksFirst(s'.sch[t].pc) || WakeupDue(s', t)
    {
      if WakeupDue(s, t) && !LooksFirst(s'.sch[t].pc) {
        forall j | 0 <= j < |s.sch| && SchedOwes(s.sch[j], t)
          ensures WakeupDue(s', t)
        {
          assert SchedOwes(s'.sch[j], t);
        }
        StillDue(s, s', t);
      }
    }
  }

  lemma SchedPushInv(s: State, i: nat, target: nat)
    requires Inv(s) && Enabled(s, SchedPush(i, target))
    ensures Inv(Next(s, SchedPush(i, target)))
  {
    var s' := Next(s, SchedPush(i, target));
    if s.sch[target].inbox < s.capacity {
      assert SchedOwes(s'.sch[i], target);
      forall t | 0 <= t < |s'.sch| && s'.sch[t].inbox > 0
        ensures LooksFirst(s'.sch[t].pc) || WakeupDue(s', t)
      {
        if t != target && WakeupDue(s, t) {
          forall j | 0 <= j < |s.sch| && SchedOwes(s.sch[j], t)
            ensures WakeupDue(s', t)
          {
            assert SchedOwes(s'.sch[j], t);
          }
          StillDue(s, s', t);
        }
      }
    }
  }

  lemma SchedNotifyInv(s: State, i: nat, full: bool)
    requires Inv(s) && Enabled(s, SchedNotify(i, full))
    ensures Inv(Next(s, SchedNotify(i, full)))
  {
    var s' := Next(s, SchedNotify(i, full));
    NotifyShape(s, i, full);
    NotifyInbox(s, i, full);
    hide WakeupDue, InboxInv;
    assert QuietInv(s') && StopInv(s');
  }

  lemma NotifyInbox(s: State, i: nat, full: bool)
    requires Inv(s) && Enabled(s, SchedNotify(i, full)) && Shape(Next(s, SchedNotify(i, full)))
    ensures InboxInv(Next(s, SchedNotify(i, full)))
  {
    hide StopInv;
    var s' := Next(s, SchedNotify(i, full));
    var target := s.sch[i].dispatching.value;
    forall t | 0 <= t < |s'.sch| && s'.sch[t].inbox > 0
      ensures LooksFirst(s'.sch[t].pc) || WakeupDue(s', t)
    {
      if WakeupDue(s, t) && !LooksFirst(s.sch[t].pc) {
        forall j | 0 <= j < |s.sch| && SchedOwes(s.sch[j], t)
          ensures WakeupDue(s', t)
        {
          if j == i && full && t in s.sch[i].sq && s.sch[target].pc != Init {
            assert Posted(s', t);
          } else {
            assert SchedOwes(s'.sch[j], t);
          }
        }
        StillDue(s, s', t);
      }
    }
  }

  lemma ExtPushInv(s: State, d: nat, target: nat)
    requires Inv(s) && Enabled(s, ExtPush(d, target))
    ensures Inv(Next(s, ExtPush(d, target)))
  {
    var s' := Next(s, ExtPush(d, target));
    if s.sch[target].inbox < s.capacity {
      assert ThreadOwes(s'.ext[d], target);
      ThreadsAndSchedsKept(s, s', d);
    }
  }

  /** Transitions of external thread `d`: the other threads and all schedulers owe what they did. */
  lemma ThreadsAndSchedsKept(s: State, s': State, d: nat)
    requires Inv(s) && Shape(s') && |s'.sch| == |s.sch| && |s'.ext| == |s.ext|
    requires s'.stopper == s.stopper
    requires forall e :: 0 <= e < |s.ext| && e != d ==> s'.ext[e] == s.ext[e]
    requires forall j :: 0 <= j < |s.sch| ==>
               s'.sch[j].sq == s.sch[j].sq && s'.sch[j].dispatching == s.sch[j].dispatching
               && s'.sch[j].cq == s.sch[j].cq && s'.flight[j] >= s.flight[j]
    requires forall t :: 0 <= t < |s.sch| && d < |s.ext| && ThreadOwes(s.ext[d], t) && !LooksFirst(s.sch[t].pc) ==>
               WakeupDue(s', t)
    ensures forall t :: 0 <= t < |s.sch| && WakeupDue(s, t) && !LooksFirst(s.sch[t].pc) ==> WakeupDue(s', t)
  {
    forall t | 0 <= t < |s.sch| && WakeupDue(s, t) && !LooksFirst(s.sch[t].pc)
      ensures WakeupDue(s', t)
    {
      forall j | 0 <= j < |s.sch| && SchedOwes(s.sch[j], t)
        ensures WakeupDue(s', t)
      {
        assert SchedOwes(s'.sch[j], t);
      }
      forall e | 0 <= e < |s.ext| && ThreadOwes(s.ext[e], t)
        ensures WakeupDue(s', t)
      {
        if e != d { assert ThreadOwes(s'.ext[e], t); }
      }
      StillDue(s, s', t);
    }
  }

  lemma ExtReadInv(s: State, d: nat)
    requires Inv(s) && Enabled(s, ExtRead(d))
    ensures var s', t := Next(s, ExtRead(d)), s.ext[d].target;
            && Inv(s')
            && (ThreadOwes(s'.ext[d], t) || (s'.ext[d] == Idle && s'.sch[t].pc == Init && LooksFirst(s'.sch[t].pc)))
  {
    var s' := Next(s, ExtRead(d));
    if s.sch[s.ext[d].target].pc != Init { assert ThreadOwes(s'.ext[d], s.ext[d].target); }
    ThreadsAndSchedsKept(s, s', d);
  }

  lemma ExtSubmitInv(s: State, d: nat)
    requires Inv(s) && Enabled(s, ExtSubmit(d))
    ensures Inv(Next(s, ExtSubmit(d))) && Posted(Next(s, ExtSubmit(d)), s.ext[d].target)
  {
    var s' := Next(s, ExtSubmit(d));
    assert Posted(s', s.ext[d].target);
    ThreadsAndSchedsKept(s, s', d);
  }

  lemma DeliverInv(s: State, target: nat)
    requires Inv(s) && Enabled(s, Deliver(target))
    ensures Inv(Next(s, Deliver(target)))
  {
    var s' := Next(s, Deliver(target));
    assert Posted(s', target);
    ArrivalKept(s, s');
  }

  lemma CompleteInv(s: State, i: nat)
    requires Inv(s) && Enabled(s, Complete(i))
    ensures Inv(Next(s, Complete(i)))
  {
    ArrivalKept(s, Next(s, Complete(i)));
  }

  /** Completions only arrive: nothing that was due is lost. */
  lemma ArrivalKept(s: State, s': State)
    requires Inv(s) && Shape(s') && |s'.sch| == |s.sch|
    requires s' == s.(sch := s'.sch, flight := s'.flight)
    requires forall j :: 0 <= j < |s.sch| ==> s'.sch[j] == s.sch[j].(cq := s'.sch[j].cq)
    requires forall t :: 0 <= t < |s.sch| && Posted(s, t) ==> Posted(s', t)
    ensures Inv(s')
  {
    forall t | 0 <= t < |s'.sch| && s'.sch[t].inbox > 0
      ensures LooksFirst(s'.sch[t].pc) || WakeupDue(s', t)
    {
      if WakeupDue(s, t) {
        forall j | 0 <= j < |s.sch| && SchedOwes(s.sch[j], t)
          ensures WakeupDue(s', t)
        {
          assert SchedOwes(s'.sch[j], t);
        }
        StillDue(s, s', t);
      }
    }
  }

  /** Transitions of the stopping thread keep everybody else's debts. */
  lemma StopperKept(s: State, s': State)
    requires Inv(s) && Shape(s') && |s'.sch| == |s.sch| && s'.ext == s.ext
    requires forall j :: 0 <= j < |s.sch| ==>
               s'.sch[j].sq == s.sch[j].sq && s'.sch[j].dispatching == s.sch[j].dispatching
               && s'.sch[j].cq == s.sch[j].cq && s'.flight[j] >= s.flight[j]
    requires forall t :: 0 <= t < |s.sch| && StopOwes(s, t) && !LooksFirst(s.sch[t].pc) ==> WakeupDue(s', t)
    ensures forall t :: 0 <= t < |s.sch| && WakeupDue(s, t) && !LooksFirst(s.sch[t].pc) ==> WakeupDue(s', t)
  {
    forall t | 0 <= t < |s.sch| && WakeupDue(s, t) && !LooksFirst(s.sch[t].pc)
      ensures WakeupDue(s', t)
    {
      forall j | 0 <= j < |s.sch| && SchedOwes(s.sch[j], t)
        ensures WakeupDue(s', t)
      {
        assert SchedOwes(s'.sch[j], t);
      }
      StillDue(s, s', t);
    }
  }

  lemma StopPushInv(s: State)
    requires Inv(s) && Enabled(s, StopPush)
    ensures Inv(Next(s, StopPush))
  {
    var s' := Next(s, StopPush);
    if s.sch[s.stopper.next].inbox < s.capacity { assert StopOwes(s', s.stopper.next); }
    StopperKept(s, s');
  }

  lemma StopReadInv(s: State)
    requires Inv(s) && Enabled(s, StopRead)
    ensures Inv(Next(s, StopRead))
  {
    var s' := Next(s, StopRead);
    if s.sch[s.stopper.at.target].pc != Init { assert StopOwes(s', s.stopper.at.target); }
    StopperKept(s, s');
  }

  lemma StopSubmitInv(s: State)
    requires Inv(s) && Enabled(s, StopSubmit)
    ensures Inv(Next(s, StopSubmit))
  {
    var s' := Next(s, StopSubmit);
    assert Posted(s', s.stopper.at.target);
    StopperKept(s, s');
  }

  lemma StopBeginInv(s: State)
    requires Inv(s) && Enabled(s, StopBegin)
    ensures Inv(Next(s, StopBegin))
  {
    StopperKept(s, Next(s, StopBegin));
  }

  lemma SchedStepInv(s: State, a: Action)
    requires Inv(s) && Enabled(s, a)
    requires a.Enter? || a.CheckFlag? || a.PopInbox? || a.DrainDone? || a.TakeBatch? || a.BatchDone?
          || a.Wake? || a.Interrupted? || a.PollDone?
    ensures Inv(Next(s, a))
  {
    hide WakeupDue, InboxInv, StopInv;
    var i := a.i;
    var x := s.sch[i];
    match a
    case Enter(_) => LocalStep(s, i, x.(pc := Top));
    case CheckFlag(_) => LocalStep(s, i, x.(pc := if s.running then Drain(false) else Done));
    case PopInbox(_) => LocalStep(s, i, x.(inbox := x.inbox - 1));
    case DrainDone(_) => LocalStep(s, i, x.(pc := if x.pc.inPoll then Poll else Dequeue));
    case TakeBatch(_, empty) => LocalStep(s, i, x.(pc := if empty then Submit else RunBatch));
    case BatchDone(_) => LocalStep(s, i, x.(pc := Poll));
    case Wake(_) => LocalStep(s, i, x.(pc := Poll));
    case Interrupted(_) => LocalStep(s, i, x.(pc := Top));
    case PollDone(_) => LocalStep(s, i, x.(pc := Top));
  }

  lemma StepInv(s: State, a: Action)
    requires Inv(s) && Enabled(s, a)
    ensures Inv(Next(s, a))
  {
    hide Inv, Next, Enabled;
    match a
    case SubmitAll(i, untimed) => SubmitAllInv(s, i, untimed);
    case TakeCqe(i) => TakeCqeInv(s, i);
    case SchedPush(i, t) => SchedPushInv(s, i, t);
    case SchedNotify(i, full) => SchedNotifyInv(s, i, full);
    case ExtPush(d, t) => ExtPushInv(s, d, t);
    case ExtRead(d) => ExtReadInv(s, d);
    case ExtSubmit(d) => ExtSubmitInv(s, d);
    case Deliver(t) => DeliverInv(s, t);
    case Complete(i) => CompleteInv(s, i);
    case StopBegin => StopBeginInv(s);
    case StopPush => StopPushInv(s);
    case StopRead => StopReadInv(s);
    case StopSubmit => StopSubmitInv(s);
    case _ => SchedStepInv(s, a);
  }

  // --- What holds over every run ----------------------------------------------------------------

  lemma {:induction false} AfterInv(s: State, acts: seq<Action>)
    requires Inv(s) && Runs(s, acts)
    ensures Inv(After(s, acts))
    decreases |acts|
  {
    if acts != [] {
      hide InboxInv, QuietInv, StopInv, Next, Enabled;
      StepInv(s, acts[0]);
      AfterInv(Next(s, acts[0]), acts[1..]);
    }
  }

  /** A wake-up that is posted, or owed by somebody who has not left. */
  ghost predicate LiveDue(s: State, t: nat)
    requires t < |s.sch| == |s.flight|
  {
    || Posted(s, t)
    || StopOwes(s, t)
    || (exists d :: 0 <= d < |s.ext| && ThreadOwes(s.ext[d], t))
    || (exists j :: 0 <= j < |s.sch| && SchedOwes(s.sch[j], t) && s.sch[j].pc != Done)
  }

  /** A message for `t` was left unsubmitted by a scheduler that has left its loop. */
  ghost predicate Abandoned(s: State, t: nat) {
    exists j :: 0 <= j < |s.sch| && s.sch[j].pc == Done && t in s.sch[j].sq
  }

  /** No scheduler blocks on a nonempty inbox unless a wake-up for it is on its way, owed by nobody who
      is himself blocked.  After `stop`, and only then, the wake-up may have been abandoned. */
  lemma NoStrandedInbox(n: nat, d: nat, capacity: nat, acts: seq<Action>, t: nat)
    requires Runs(Initial(n, d, capacity), acts) && t < |After(Initial(n, d, capacity), acts).sch|
    ensures var s := After(Initial(n, d, capacity), acts);
            && (s.sch[t].pc.Wait? && s.sch[t].inbox > 0 ==> LiveDue(s, t) || (!s.running && Abandoned(s, t)))
            && (forall j :: 0 <= j < |s.sch| && SchedOwes(s.sch[j], t) ==> !s.sch[j].pc.Wait?)
  {
    hide Next, After, Runs;
    InitialInv(n, d, capacity);
    AfterInv(Initial(n, d, capacity), acts);
    DueLiveOrAbandoned(After(Initial(n, d, capacity), acts), t);
  }

  lemma DueLiveOrAbandoned(s: State, t: nat)
    requires Inv(s) && t < |s.sch|
    ensures WakeupDue(s, t) ==> LiveDue(s, t) || (!s.running && Abandoned(s, t))
  {
    forall j | 0 <= j < |s.sch| && SchedOwes(s.sch[j], t) && s.sch[j].pc == Done
      ensures !s.running && Abandoned(s, t)
    {
      assert t in s.sch[j].sq;
    }
  }

  ghost predicate EverybodyBlocked(s: State)
    requires Shape(s)
  {
    && (forall i :: 0 <= i < |s.sch| ==> s.sch[i].pc.Wait? && s.sch[i].cq == [] && s.flight[i] == 0)
    && (forall d :: 0 <= d < |s.ext| ==> s.ext[d] == Idle)
    && (s.stopper.Visiting? ==> s.stopper.at == Idle)
  }

  /** When every scheduler is blocked with nothing to read and no dispatch is under way, no task
      is left in any inbox. */
  lemma BlockedMeansDrained(n: nat, d: nat, capacity: nat, acts: seq<Action>, t: nat)
    requires Runs(Initial(n, d, capacity), acts) && t < |After(Initial(n, d, capacity), acts).sch|
    requires EverybodyBlocked(After(Initial(n, d, capacity), acts))
    ensures After(Initial(n, d, capacity), acts).sch[t].inbox == 0
  {
    hide Next, After, Runs;
    var s := After(Initial(n, d, capacity), acts);
    InitialInv(n, d, capacity);
    AfterInv(Initial(n, d, capacity), acts);
    NobodyOwes(s, t);
  }

  lemma NobodyOwes(s: State, t: nat)
    requires Inv(s) && t < |s.sch| && EverybodyBlocked(s)
    ensures !WakeupDue(s, t)
  {
    forall j | 0 <= j < |s.sch| ensures !SchedOwes(s.sch[j], t) {}
    forall d | 0 <= d < |s.ext| ensures !ThreadOwes(s.ext[d], t) {}
  }

  /** Once the push of `stop` to scheduler `t` has succeeded, `t` never blocks without the wake-up
      that `stop` itself sent, even if it ran the pushed task before blocking; and that wake-up
      does not depend on any other scheduler submitting anything. */
  lemma StopReaches(n: nat, d: nat, capacity: nat, acts: seq<Action>, t: nat)
    requires Runs(Initial(n, d, capacity), acts) && t < |After(Initial(n, d, capacity), acts).sch|
    ensures var s := After(Initial(n, d, capacity), acts);
            s.sent[t] ==> !s.running && (s.sch[t].pc.Wait? ==> Posted(s, t) || StopOwes(s, t))
  {
    hide Next, After, Runs;
    InitialInv(n, d, capacity);
    AfterInv(Initial(n, d, capacity), acts);
  }

  lemma StaysOnTheWayOut(s: State, a: Action, t: nat)
    requires Inv(s) && Enabled(s, a) && t < |s.sch| && !s.running && ChecksFirst(s.sch[t].pc)
    ensures !Next(s, a).running && |Next(s, a).sch| == |s.sch| && ChecksFirst(Next(s, a).sch[t].pc)
    ensures a == CheckFlag(t) ==> Next(s, a).sch[t].pc == Done
  {
    hide InboxInv, StopInv;
  }

  /** Having consumed a wake-up after `stop`, a scheduler never blocks again: it stays on the way
      to its next test of the flag, which takes it out of the loop. */
  lemma {:induction false} NeverBlocksAgain(s: State, acts: seq<Action>, t: nat)
    requires Inv(s) && Runs(s, acts) && t < |s.sch| && !s.running && ChecksFirst(s.sch[t].pc)
    ensures var s' := After(s, acts); t < |s'.sch| && !s'.running && ChecksFirst(s'.sch[t].pc)
    decreases |acts|
  {
    if acts != [] {
      hide Next, Enabled, InboxInv, QuietInv, StopInv;
      StepInv(s, acts[0]);
      StaysOnTheWayOut(s, acts[0], t);
      NeverBlocksAgain(Next(s, acts[0]), acts[1..], t);
    }
  }

  lemma {:induction false} RunsAppend(s: State, a: seq<Action>, b: seq<Action>)
    requires Shape(s) && Runs(s, a) && Runs(After(s, a), b)
    ensures Runs(s, a + b) && After(s, a + b) == After(After(s, a), b)
    decreases |a|
  {
    hide Next, Enabled;
    if a == [] {
      assert a + b == b;
    } else {
      assert (a + b)[0] == a[0] && (a + b)[1..] == a[1..] + b;
      ShapeKept(s, a[0]);
      RunsAppend(Next(s, a[0]), a[1..], b);
    }
  }

  lemma Prepend(s: State, a: Action, rest: seq<Action>)
    requires Shape(s) && Enabled(s, a) && Shape(Next(s, a)) && Runs(Next(s, a), rest)
    ensures Runs(s, [a] + rest) && After(s, [a] + rest) == After(Next(s, a), rest)
  {
    hide Next, Enabled;
    assert ([a] + rest)[1..] == rest;
  }
}
