/**
 What becomes of a scheduler that `stop` has visited: exactly when it can block for good, so that
 `stop` waits for it forever.
 */
module StopHangs {
  import opened Wakeup

  /** Scheduler `t` tests the flag before it can block, or its wait ends by itself, or something that
      no scheduler can withhold wakes it: an unread or undelivered completion, a message `t` owes
      itself, a thread that is dispatching to it, or a scheduler that is about to submit. */
  ghost predicate Saved(s: State, t: nat)
    requires Shape(s) && t < |s.sch|
  {
    || ChecksFirst(s.sch[t].pc) || s.sch[t].pc == Wait(false)
    || s.sch[t].cq != [] || s.flight[t] > 0
    || SchedOwes(s.sch[t], t)
    || StopOwes(s, t)
    || (exists d :: 0 <= d < |s.ext| && ThreadOwes(s.ext[d], t))
    || (exists j :: 0 <= j < |s.sch| && Submitting(s.sch[j], t))
  }

  predicate Submitting(x: Sched, t: nat) { x.pc == Submit && t in x.sq }

  /** Blocked with nothing to read and nothing under way; whoever still owes a message has left. */
  ghost predicate Stranded(s: State, t: nat)
    requires Shape(s) && t < |s.sch|
  {
    && s.sch[t].pc == Wait(true) && s.sch[t].cq == [] && s.flight[t] == 0
    && Visited(s, t) && !StopOwes(s, t)
    && (forall d :: 0 <= d < |s.ext| ==> !ThreadOwes(s.ext[d], t))
    && (forall j :: 0 <= j < |s.sch| && SchedOwes(s.sch[j], t) ==> s.sch[j].pc == Done)
  }

  /** `stop` is past scheduler `t`. */
  predicate Visited(s: State, t: nat) { !s.running && s.stopper.Visiting? && t < s.stopper.next }

  // --- Safe stays safe ----------------------------------------------------------------------

  lemma SavedSubmit(s: State, i: nat, untimed: bool, t: nat)
    requires Inv(s) && t < |s.sch| && Enabled(s, SubmitAll(i, untimed)) && Saved(s, t)
    ensures Saved(Next(s, SubmitAll(i, untimed)), t)
  {
    hide InboxInv, StopInv;
    var s' := Next(s, SubmitAll(i, untimed));
    forall j | 0 <= j < |s.sch| && Submitting(s.sch[j], t)
      ensures Saved(s', t)
    {
      if j != i { assert Submitting(s'.sch[j], t); }
    }
    forall d | 0 <= d < |s.ext| && ThreadOwes(s.ext[d], t)
      ensures Saved(s', t)
    {
      assert ThreadOwes(s'.ext[d], t);
    }
  }

  lemma SavedNotify(s: State, i: nat, full: bool, t: nat)
    requires Inv(s) && t < |s.sch| && Enabled(s, SchedNotify(i, full)) && Saved(s, t)
    ensures Saved(Next(s, SchedNotify(i, full)), t)
  {
    hide InboxInv, StopInv;
    var s' := Next(s, SchedNotify(i, full));
    forall j | 0 <= j < |s.sch| && Submitting(s.sch[j], t)
      ensures Saved(s', t)
    {
      assert j != i;
      assert Submitting(s'.sch[j], t);
    }
    forall d | 0 <= d < |s.ext| && ThreadOwes(s.ext[d], t)
      ensures Saved(s', t)
    {
      assert ThreadOwes(s'.ext[d], t);
    }
  }

  /** Steps of the dispatching threads and of the kernel. */
  lemma SavedThread(s: State, a: Action, t: nat)
    requires Inv(s) && t < |s.sch| && Enabled(s, a) && Saved(s, t)
    requires a.ExtPush? || a.ExtRead? || a.ExtSubmit? || a.Deliver? || a.Complete?
    ensures Shape(Next(s, a)) && |Next(s, a).sch| == |s.sch| && Saved(Next(s, a), t)
  {
    hide InboxInv, StopInv;
    var s' := Next(s, a);
    ShapeKept(s, a);
    forall j | 0 <= j < |s.sch| && Submitting(s.sch[j], t)
      ensures Saved(s', t)
    {
      assert Submitting(s'.sch[j], t);
    }
    forall d | 0 <= d < |s.ext| && ThreadOwes(s.ext[d], t)
      ensures Saved(s', t)
    {
      if a == ExtRead(d) {
        assert s.sch[t].pc == Init || ThreadOwes(s'.ext[d], t);
      } else if a == ExtSubmit(d) {
        assert s'.flight[t] > 0;
      } else {
        assert ThreadOwes(s'.ext[d], t);
      }
    }
  }

  /** Steps of the thread that calls `stop`. */
  lemma SavedStopper(s: State, a: Action, t: nat)
    requires Inv(s) && t < |s.sch| && Enabled(s, a) && Saved(s, t)
    requires a.StopBegin? || a.StopPush? || a.StopRead? || a.StopSubmit?
    ensures Shape(Next(s, a)) && |Next(s, a).sch| == |s.sch| && Saved(Next(s, a), t)
  {
    hide InboxInv, StopInv;
    var s' := Next(s, a);
    ShapeKept(s, a);
    forall j | 0 <= j < |s.sch| && Submitting(s.sch[j], t)
      ensures Saved(s', t)
    {
      assert Submitting(s'.sch[j], t);
    }
    assert s'.ext == s.ext;
  }

  /** The other steps of a scheduler. */
  lemma SavedSched(s: State, a: Action, t: nat)
    requires Inv(s) && !s.running && t < |s.sch| && Enabled(s, a) && Saved(s, t)
    requires a.Enter? || a.CheckFlag? || a.PopInbox? || a.DrainDone? || a.TakeBatch? || a.BatchDone?
          || a.Wake? || a.Interrupted? || a.PollDone? || a.TakeCqe? || a.SchedPush?
    ensures Shape(Next(s, a)) && |Next(s, a).sch| == |s.sch| && Saved(Next(s, a), t)
  {
    hide InboxInv, StopInv;
    var s' := Next(s, a);
    ShapeKept(s, a);
    forall j | 0 <= j < |s.sch| && Submitting(s.sch[j], t)
      ensures Saved(s', t)
    {
      assert Submitting(s'.sch[j], t);
    }
    forall d | 0 <= d < |s.ext| && ThreadOwes(s.ext[d], t)
      ensures Saved(s', t)
    {
      assert ThreadOwes(s'.ext[d], t);
    }
  }

  lemma SavedStep(s: State, a: Action, t: nat)
    requires Inv(s) && !s.running && t < |s.sch| && Enabled(s, a) && Saved(s, t)
    ensures Shape(Next(s, a)) && |Next(s, a).sch| == |s.sch| && !Next(s, a).running && Saved(Next(s, a), t)
  {
    hide InboxInv, QuietInv, StopInv, Saved;
    ShapeKept(s, a);
    StaysStopped(s, a);
    hide Next, Enabled;
    match a
    case SubmitAll(i, untimed) => SavedSubmit(s, i, untimed, t);
    case SchedNotify(i, full) => SavedNotify(s, i, full, t);
    case ExtPush(_, _) => SavedThread(s, a, t);
    case ExtRead(_) => SavedThread(s, a, t);
    case ExtSubmit(_) => SavedThread(s, a, t);
    case Deliver(_) => SavedThread(s, a, t);
    case Complete(_) => SavedThread(s, a, t);
    case StopBegin => SavedStopper(s, a, t);
    case StopPush => SavedStopper(s, a, t);
    case StopRead => SavedStopper(s, a, t);
    case StopSubmit => SavedStopper(s, a, t);
    case _ => SavedSched(s, a, t);
  }

  lemma StaysStopped(s: State, a: Action)
    requires Shape(s) && Enabled(s, a) && !s.running
    ensures !Next(s, a).running
  {
  }

  lemma SavedIsNotStranded(s: State, t: nat)
    requires Inv(s) && t < |s.sch| && Saved(s, t)
    ensures !Stranded(s, t)
  {
    hide InboxInv, StopInv;
  }

  /** A scheduler that is saved never becomes stranded, whatever anybody does. */
  lemma {:induction false} SavedNeverStrands(s: State, acts: seq<Action>, t: nat)
    requires Inv(s) && !s.running && Runs(s, acts) && t < |s.sch| && Saved(s, t)
    ensures var s' := After(s, acts); t < |s'.sch| && !Stranded(s', t)
    decreases |acts|
  {
    hide InboxInv, QuietInv, StopInv, Next, Enabled, Saved, Stranded;
    if acts == [] {
      SavedIsNotStranded(s, t);
    } else {
      StepInv(s, acts[0]);
      SavedStep(s, acts[0], t);
      SavedNeverStrands(Next(s, acts[0]), acts[1..], t);
    }
  }

  // --- Stranded stays stranded --------------------------------------------------------------

  /** Nobody pushes to `t` any more, no completion arrives for it, and no signal interrupts it. */
  predicate Undisturbed(a: Action, t: nat) {
    match a
    case ExtPush(_, target) => target != t
    case SchedPush(_, target) => target != t
    case Complete(i) => i != t
    case Interrupted(i) => i != t
    case _ => true
  }

  lemma StrandedStep(s: State, a: Action, t: nat)
    requires Inv(s) && t < |s.sch| && Enabled(s, a) && Stranded(s, t) && Undisturbed(a, t)
    ensures Shape(Next(s, a)) && |Next(s, a).sch| == |s.sch| && Stranded(Next(s, a), t)
  {
    hide InboxInv, QuietInv, StopInv, Stranded;
    ShapeKept(s, a);
    hide Next, Enabled;
    match a
    case SubmitAll(i, untimed) => StrandedSubmit(s, i, untimed, t);
    case SchedNotify(i, full) => StrandedNotify(s, i, full, t);
    case ExtPush(_, _) => StrandedThread(s, a, t);
    case ExtRead(_) => StrandedThread(s, a, t);
    case ExtSubmit(_) => StrandedThread(s, a, t);
    case Deliver(_) => StrandedThread(s, a, t);
    case Complete(_) => StrandedThread(s, a, t);
    case StopBegin => StrandedStopper(s, a, t);
    case StopPush => StrandedStopper(s, a, t);
    case StopRead => StrandedStopper(s, a, t);
    case StopSubmit => StrandedStopper(s, a, t);
    case _ => StrandedSched(s, a, t);
  }

  lemma StrandedSubmit(s: State, i: nat, untimed: bool, t: nat)
    requires Inv(s) && t < |s.sch| && Enabled(s, SubmitAll(i, untimed)) && Stranded(s, t)
    requires Shape(Next(s, SubmitAll(i, untimed)))
    ensures |Next(s, SubmitAll(i, untimed)).sch| == |s.sch| && Stranded(Next(s, SubmitAll(i, untimed)), t)
  {
    hide InboxInv, StopInv;
    assert !SchedOwes(s.sch[i], t);
    LaunchOthers(s.flight, s.sch[i].sq, t);
  }

  lemma StrandedNotify(s: State, i: nat, full: bool, t: nat)
    requires Inv(s) && t < |s.sch| && Enabled(s, SchedNotify(i, full)) && Stranded(s, t)
    requires Shape(Next(s, SchedNotify(i, full)))
    ensures |Next(s, SchedNotify(i, full)).sch| == |s.sch| && Stranded(Next(s, SchedNotify(i, full)), t)
  {
    hide InboxInv, StopInv;
    assert !SchedOwes(s.sch[i], t);
    LaunchOthers(s.flight, s.sch[i].sq, t);
    var s' := Next(s, SchedNotify(i, full));
    assert !SchedOwes(s'.sch[i], t);
  }

  lemma StrandedThread(s: State, a: Action, t: nat)
    requires Inv(s) && t < |s.sch| && Enabled(s, a) && Stranded(s, t) && Undisturbed(a, t) && Shape(Next(s, a))
    requires a.ExtPush? || a.ExtRead? || a.ExtSubmit? || a.Deliver? || a.Complete?
    ensures |Next(s, a).sch| == |s.sch| && Stranded(Next(s, a), t)
  {
    hide InboxInv, StopInv;
    var s' := Next(s, a);
    forall j | 0 <= j < |s.sch| ensures SchedOwes(s'.sch[j], t) ==> s'.sch[j].pc == Done {
      assert SchedOwes(s.sch[j], t) ==> s.sch[j].pc == Done;
    }
    forall d | 0 <= d < |s.ext| ensures !ThreadOwes(s'.ext[d], t) {
      assert !ThreadOwes(s.ext[d], t);
    }
  }

  lemma StrandedStopper(s: State, a: Action, t: nat)
    requires Inv(s) && t < |s.sch| && Enabled(s, a) && Stranded(s, t) && Undisturbed(a, t) && Shape(Next(s, a))
    requires a.StopBegin? || a.StopPush? || a.StopRead? || a.StopSubmit?
    ensures |Next(s, a).sch| == |s.sch| && Stranded(Next(s, a), t)
  {
    hide InboxInv, StopInv;
    var s' := Next(s, a);
    forall j | 0 <= j < |s.sch| ensures SchedOwes(s'.sch[j], t) ==> s'.sch[j].pc == Done {
      assert SchedOwes(s.sch[j], t) ==> s.sch[j].pc == Done;
    }
    forall d | 0 <= d < |s.ext| ensures !ThreadOwes(s'.ext[d], t) {
      assert !ThreadOwes(s.ext[d], t);
    }
  }

  lemma StrandedSched(s: State, a: Action, t: nat)
    requires Inv(s) && t < |s.sch| && Enabled(s, a) && Stranded(s, t) && Undisturbed(a, t) && Shape(Next(s, a))
    requires a.Enter? || a.CheckFlag? || a.PopInbox? || a.DrainDone? || a.TakeBatch? || a.BatchDone?
          || a.Wake? || a.Interrupted? || a.PollDone? || a.TakeCqe? || a.SchedPush?
    ensures |Next(s, a).sch| == |s.sch| && Stranded(Next(s, a), t)
  {
    hide InboxInv, StopInv;
    var s' := Next(s, a);
    forall j | 0 <= j < |s.sch| ensures SchedOwes(s'.sch[j], t) ==> s'.sch[j].pc == Done {
      assert SchedOwes(s.sch[j], t) ==> s.sch[j].pc == Done;
    }
  }

  lemma {:induction false} LaunchOthers(flight: seq<nat>, sq: seq<nat>, t: nat)
    requires (forall k :: 0 <= k < |sq| ==> sq[k] < |flight|) && t < |flight| && t !in sq
    ensures Launch(flight, sq)[t] == flight[t]
    decreases |sq|
  {
    if sq != [] { LaunchOthers(flight, sq[1..], t); }
  }

  /** Left to itself a stranded scheduler stays blocked for good, over every continuation. */
  lemma {:induction false} StrandedForGood(s: State, acts: seq<Action>, t: nat)
    requires Inv(s) && Runs(s, acts) && t < |s.sch| && Stranded(s, t)
    requires forall k :: 0 <= k < |acts| ==> Undisturbed(acts[k], t)
    ensures var s' := After(s, acts); t < |s'.sch| && Stranded(s', t)
    decreases |acts|
  {
    hide InboxInv, QuietInv, StopInv, Next, Enabled, Stranded, Undisturbed;
    if acts != [] {
      StepInv(s, acts[0]);
      StrandedStep(s, acts[0], t);
      StrandedForGood(Next(s, acts[0]), acts[1..], t);
    }
  }

  // --- Who is not saved can be stranded -----------------------------------------------------

  predicate CanLeave(p: PC) { p != Submit && !p.Wait? }

  /** The next step of a scheduler that makes for the exit without submitting. */
  function Leave(s: State, j: nat): Action
    requires j < |s.sch|
  {
    if s.sch[j].dispatching.Some? then SchedNotify(j, false) else
    match s.sch[j].pc
    case Init => Enter(j)
    case Drain(_) => if s.sch[j].inbox > 0 then PopInbox(j) else DrainDone(j)
    case Dequeue => TakeBatch(j, false)
    case RunBatch => BatchDone(j)
    case Poll => if s.sch[j].cq != [] then TakeCqe(j) else PollDone(j)
    case _ => CheckFlag(j)
  }

  function Rank(p: PC): nat {
    match p
    case Drain(inPoll) => if inPoll then 4 else 7
    case Dequeue => 6
    case RunBatch => 5
    case Poll => 3
    case Init => 2
    case Top => 1
    case Submit => 5
    case _ => 0
  }

  function Busy(x: Sched): nat { if x.dispatching.Some? then 1 else 0 }

  lemma LeaveStep(s: State, j: nat)
    requires Inv(s) && !s.running && j < |s.sch| && CanLeave(s.sch[j].pc) && s.sch[j].pc != Done
    ensures Enabled(s, Leave(s, j))
    ensures var s' := Next(s, Leave(s, j));
            && |s'.sch| == |s.sch| && s' == s.(sch := s.sch[j := s'.sch[j]])
            && CanLeave(s'.sch[j].pc)
            && LessWork(s'.sch[j], s.sch[j])
  {
    hide InboxInv, StopInv;
  }

  predicate LessWork(y: Sched, x: Sched) {
    || |y.cq| < |x.cq|
    || (|y.cq| == |x.cq| && Rank(y.pc) < Rank(x.pc))
    || (|y.cq| == |x.cq| && Rank(y.pc) == Rank(x.pc) && y.inbox < x.inbox)
    || (|y.cq| == |x.cq| && Rank(y.pc) == Rank(x.pc) && y.inbox == x.inbox && Busy(y) < Busy(x))
  }

  /** Once the flag is cleared such a scheduler can leave without anybody noticing. */
  lemma {:induction false} Exit(s: State, j: nat) returns (acts: seq<Action>)
    requires Inv(s) && !s.running && j < |s.sch| && CanLeave(s.sch[j].pc)
    ensures Runs(s, acts)
    ensures var s' := After(s, acts);
            && Inv(s') && |s'.sch| == |s.sch| && s' == s.(sch := s.sch[j := s'.sch[j]]) && s'.sch[j].pc == Done
    decreases |s.sch[j].cq|, Rank(s.sch[j].pc), s.sch[j].inbox, Busy(s.sch[j])
  {
    hide InboxInv, QuietInv, StopInv, Next, Enabled, Leave;
    if s.sch[j].pc == Done {
      acts := [];
    } else {
      LeaveStep(s, j);
      var a := Leave(s, j);
      StepInv(s, a);
      var rest := Exit(Next(s, a), j);
      Prepend(s, a, rest);
      acts := [a] + rest;
    }
  }

  /** From `s` to `s'` all schedulers below `k` that owe `t` a message leave, and nobody else moves. */
  ghost predicate Cleared(s: State, s': State, t: nat, k: nat) {
    && |s'.sch| == |s.sch| && s' == s.(sch := s'.sch)
    && (forall j :: 0 <= j < |s.sch| && (k <= j || j == t) ==> s'.sch[j] == s.sch[j])
    && (forall j :: 0 <= j < k && j < |s.sch| && SchedOwes(s'.sch[j], t) ==> s'.sch[j].pc == Done)
  }

  lemma {:induction false} ExitAll(s: State, t: nat, k: nat) returns (acts: seq<Action>)
    requires Inv(s) && !s.running && t < |s.sch| && k <= |s.sch| && !Saved(s, t)
    ensures Runs(s, acts) && Inv(After(s, acts)) && Cleared(s, After(s, acts), t, k)
  {
    if k == 0 {
      acts := [];
    } else {
      var first := ExitAll(s, t, k - 1);
      acts := ExitOne(s, t, k - 1, first);
    }
  }

  lemma ExitOne(s: State, t: nat, j: nat, first: seq<Action>) returns (acts: seq<Action>)
    requires Inv(s) && !s.running && t < |s.sch| && j < |s.sch| && !Saved(s, t)
    requires Runs(s, first) && Inv(After(s, first)) && Cleared(s, After(s, first), t, j)
    ensures Runs(s, acts) && Inv(After(s, acts)) && Cleared(s, After(s, acts), t, j + 1)
  {
    hide Runs, After, InboxInv, QuietInv, StopInv, Saved, Cleared;
    var s1 := After(s, first);
    if SchedOwes(s.sch[j], t) {
      OwingCanLeave(s, t, j);
      Unmoved(s, s1, t, j);
      var last := Exit(s1, j);
      RunsAppend(s, first, last);
      acts := first + last;
      ClearedMore(s, s1, After(s1, last), t, j);
    } else {
      acts := first;
      ClearedSkip(s, s1, t, j);
    }
  }

  lemma Unmoved(s: State, s1: State, t: nat, j: nat)
    requires Cleared(s, s1, t, j) && j < |s.sch|
    ensures |s1.sch| == |s.sch| && s1.sch[j] == s.sch[j] && s1.running == s.running
  {
  }

  lemma ClearedMore(s: State, s1: State, s2: State, t: nat, j: nat)
    requires Cleared(s, s1, t, j) && j < |s.sch| && j != t
    requires |s2.sch| == |s1.sch| && j < |s1.sch| && s2 == s1.(sch := s1.sch[j := s2.sch[j]]) && s2.sch[j].pc == Done
    ensures Cleared(s, s2, t, j + 1)
  {
  }

  lemma ClearedSkip(s: State, s1: State, t: nat, j: nat)
    requires Cleared(s, s1, t, j) && j < |s.sch| && !SchedOwes(s.sch[j], t)
    ensures Cleared(s, s1, t, j + 1)
  {
  }

  lemma OwingCanLeave(s: State, t: nat, j: nat)
    requires Inv(s) && t < |s.sch| && j < |s.sch| && !Saved(s, t) && SchedOwes(s.sch[j], t)
    ensures CanLeave(s.sch[j].pc) && j != t
  {
    hide InboxInv, StopInv;
    assert !Submitting(s.sch[j], t);
  }

  /** The next step of a scheduler that makes for its untimed wait. */
  function Settle(s: State, t: nat): Action
    requires t < |s.sch|
  {
    if s.sch[t].dispatching.Some? then SchedNotify(t, false) else
    match s.sch[t].pc
    case Drain(_) => if s.sch[t].inbox > 0 then PopInbox(t) else DrainDone(t)
    case Dequeue => TakeBatch(t, true)
    case _ => SubmitAll(t, true)
  }

  /** Nothing is on its way to `t`, which is past its last test of the flag. */
  predicate Sinking(s: State, t: nat)
    requires t < |s.sch| == |s.flight|
  {
    && (var p := s.sch[t].pc; p == Drain(false) || p == Dequeue || p == Submit || p == Wait(true))
    && s.sch[t].cq == [] && s.flight[t] == 0 && !SchedOwes(s.sch[t], t)
  }

  lemma SettleStep(s: State, t: nat)
    requires Inv(s) && t < |s.sch| && Sinking(s, t) && s.sch[t].pc != Wait(true)
    ensures Enabled(s, Settle(s, t))
    ensures var s' := Next(s, Settle(s, t));
            && |s'.sch| == |s.sch| == |s'.flight| && Sinking(s', t)
            && s' == s.(sch := s.sch[t := s'.sch[t]], flight := s'.flight)
            && LessWork(s'.sch[t], s.sch[t])
  {
    hide InboxInv, StopInv;
    LaunchOthers(s.flight, s.sch[t].sq, t);
  }

  lemma {:induction false} Sink(s: State, t: nat) returns (acts: seq<Action>)
    requires Inv(s) && t < |s.sch| && Sinking(s, t)
    ensures Runs(s, acts)
    ensures var s' := After(s, acts);
            && Inv(s') && |s'.sch| == |s.sch| && Sinking(s', t) && s'.sch[t].pc == Wait(true)
            && s' == s.(sch := s.sch[t := s'.sch[t]], flight := s'.flight)
    decreases |s.sch[t].cq|, Rank(s.sch[t].pc), s.sch[t].inbox, Busy(s.sch[t])
  {
    hide InboxInv, QuietInv, StopInv, Next, Enabled, Settle, Sinking;
    if s.sch[t].pc == Wait(true) {
      acts := [];
    } else {
      SettleStep(s, t);
      var a := Settle(s, t);
      StepInv(s, a);
      var rest := Sink(Next(s, a), t);
      Prepend(s, a, rest);
      acts := [a] + rest;
    }
  }

  /** Some continuation strands `t`. */
  ghost predicate CanHang(s: State, t: nat)
    requires Shape(s)
  {
    exists acts :: Runs(s, acts) && t < |After(s, acts).sch| && Stranded(After(s, acts), t)
  }

  lemma Strand(s: State, t: nat)
    requires Inv(s) && t < |s.sch| && Visited(s, t) && !Saved(s, t)
    ensures CanHang(s, t)
  {
    var leaving := ExitAll(s, t, |s.sch|);
    var s1 := After(s, leaving);
    NotSavedSinks(s, s1, t);
    var sinking := Sink(s1, t);
    RunsAppend(s, leaving, sinking);
    var acts, s2 := leaving + sinking, After(s1, sinking);
    assert Runs(s, acts) && After(s, acts) == s2;
    hide Runs, After;
    SunkIsStranded(s, s1, s2, t);
  }

  lemma SunkIsStranded(s: State, s1: State, s2: State, t: nat)
    requires Shape(s) && Shape(s2) && t < |s.sch| == |s1.sch| == |s2.sch| && Visited(s, t) && !Saved(s, t)
    requires s1 == s.(sch := s1.sch)
    requires forall j :: 0 <= j < |s.sch| && SchedOwes(s1.sch[j], t) ==> s1.sch[j].pc == Done
    requires Sinking(s2, t) && s2.sch[t].pc == Wait(true)
    requires s2 == s1.(sch := s1.sch[t := s2.sch[t]], flight := s2.flight)
    ensures Stranded(s2, t)
  {
  }

  lemma NotSavedSinks(s: State, s1: State, t: nat)
    requires Shape(s) && t < |s.sch| && !Saved(s, t)
    requires |s1.sch| == |s.sch| && s1 == s.(sch := s1.sch) && s1.sch[t] == s.sch[t]
    ensures Sinking(s1, t)
  {
  }

  /** After `stop` has visited scheduler `t`, and whether or not its push was accepted: `t` can block
      for good if and only if it is not saved. */
  lemma HangsIffNotSaved(s: State, t: nat)
    requires Inv(s) && t < |s.sch| && Visited(s, t)
    ensures CanHang(s, t) <==> !Saved(s, t)
  {
    if Saved(s, t) {
      forall acts | Runs(s, acts)
        ensures t < |After(s, acts).sch| && !Stranded(After(s, acts), t)
      {
        SavedNeverStrands(s, acts, t);
      }
    } else {
      Strand(s, t);
    }
  }

  /** An accepted push saves its target. */
  lemma SentIsSaved(s: State, t: nat)
    requires Inv(s) && t < |s.sch| && s.sent[t]
    ensures Saved(s, t)
  {
    hide InboxInv, QuietInv;
  }

  /** What a refused push finds: a full inbox, so that the target is at its drain, will test the flag,
      or has a wake-up due; whether it can hang nevertheless depends on being saved. */
  lemma RefusedPush(s: State)
    requires Inv(s) && Enabled(s, StopPush) && s.sch[s.stopper.next].inbox >= s.capacity
    ensures var t, s' := s.stopper.next, Next(s, StopPush);
            && Inv(s') && t < |s'.sch|
            && (s.capacity > 0 ==> s'.sch[t].pc == Drain(false) || ChecksFirst(s'.sch[t].pc) || WakeupDue(s', t))
            && (CanHang(s', t) <==> !Saved(s', t))
  {
    StepInv(s, StopPush);
    HangsIffNotSaved(Next(s, StopPush), s.stopper.next);
  }
}
