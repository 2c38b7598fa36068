/**
 `stop` visits every scheduler: its pushes, one after the other, miss none, and it is never stuck
 before it has tried them all.
 */
module StopVisits {
  import opened Wakeup
  import opened StopHangs

  /** The step is the push of `stop` to scheduler `t`, and finds its inbox full. */
  predicate Refuses(s: State, a: Action, t: nat)
    requires Shape(s) && Enabled(s, a)
  {
    a == StopPush && s.stopper.next == t && s.sch[t].inbox >= s.capacity
  }

  /** Some step of the run is a refused push of `stop` to scheduler `t`. */
  predicate RefusedDuring(s: State, acts: seq<Action>, t: nat)
    requires Shape(s) && Runs(s, acts)
    decreases |acts|
  {
    acts != [] &&
    (Refuses(s, acts[0], t) || (ShapeKept(s, acts[0]); RefusedDuring(Next(s, acts[0]), acts[1..], t)))
  }

  /** If `stop` is past scheduler `t`, or about to notify it, its push to `t` was accepted. */
  predicate PushedTo(s: State, t: nat)
    requires Shape(s)
  {
    s.stopper.Visiting? && t < |s.sent| && (t < s.stopper.next || (t == s.stopper.next && !s.stopper.at.Idle?)) ==>
      s.sent[t]
  }

  lemma PushedToStep(s: State, a: Action, t: nat)
    requires Inv(s) && Enabled(s, a) && t < |s.sch| && PushedTo(s, t)
    ensures Shape(Next(s, a)) && |Next(s, a).sch| == |s.sch|
    ensures Refuses(s, a, t) || PushedTo(Next(s, a), t)
  {
    hide InboxInv, StopInv;
    ShapeKept(s, a);
  }

  lemma {:induction false} PushedToRun(s: State, acts: seq<Action>, t: nat)
    requires Inv(s) && Runs(s, acts) && t < |s.sch| && PushedTo(s, t)
    ensures RefusedDuring(s, acts, t) || PushedTo(After(s, acts), t)
    decreases |acts|
  {
    hide InboxInv, QuietInv, StopInv, Next, Enabled, Refuses, PushedTo;
    if acts != [] {
      PushedToStep(s, acts[0], t);
      StepInv(s, acts[0]);
      if !Refuses(s, acts[0], t) { PushedToRun(Next(s, acts[0]), acts[1..], t); }
    }
  }

  /** Over every run: `stop` skips nobody.  Each scheduler it is past has the task of `stop`, or had a
      full inbox when `stop` pushed. */
  lemma StopSkipsNobody(n: nat, d: nat, capacity: nat, acts: seq<Action>, t: nat)
    requires Runs(Initial(n, d, capacity), acts) && t < n
    ensures var s := After(Initial(n, d, capacity), acts);
            && |s.sent| == n
            && (Visited(s, t) ==> s.sent[t] || RefusedDuring(Initial(n, d, capacity), acts, t))
  {
    InitialInv(n, d, capacity);
    SameSize(Initial(n, d, capacity), acts);
    PushedToRun(Initial(n, d, capacity), acts, t);
    hide Runs, After, RefusedDuring;
  }

  lemma {:induction false} SameSize(s: State, acts: seq<Action>)
    requires Shape(s) && Runs(s, acts)
    ensures |After(s, acts).sch| == |s.sch|
    decreases |acts|
  {
    hide Next, Enabled;
    if acts != [] {
      ShapeKept(s, acts[0]);
      SameSize(Next(s, acts[0]), acts[1..]);
    }
  }

  /** When `stop` has visited all schedulers and none of its pushes was refused, none of them can block
      for good. */
  lemma StopSucceeds(n: nat, d: nat, capacity: nat, acts: seq<Action>, t: nat)
    requires Runs(Initial(n, d, capacity), acts) && t < n && !RefusedDuring(Initial(n, d, capacity), acts, t)
    requires var s := After(Initial(n, d, capacity), acts); s.stopper.Visiting? && s.stopper.next >= n
    ensures var s := After(Initial(n, d, capacity), acts); |s.sch| == n && s.sent[t] && !CanHang(s, t)
  {
    var s := After(Initial(n, d, capacity), acts);
    StopSkipsNobody(n, d, capacity, acts, t);
    InitialInv(n, d, capacity);
    AfterInv(Initial(n, d, capacity), acts);
    hide Runs, After, RefusedDuring, InboxInv, StopInv, CanHang, Saved;
    SentIsSaved(s, t);
    HangsIffNotSaved(s, t);
  }

  /** The next step of `stop`. */
  function StopStep(s: State): Action {
    if s.stopper == NotStarted then StopBegin
    else match s.stopper.at
      case Idle => StopPush
      case Pushed(_) => StopRead
      case Notifying(_) => StopSubmit
  }

  /** Steps that `stop` has yet to make, at most. */
  function StopWork(s: State): int {
    match s.stopper
    case NotStarted => 3 * |s.sch| + 1
    case Visiting(next, at) =>
      3 * (|s.sch| - next) - (match at case Idle => 0 case Pushed(_) => 1 case Notifying(_) => 2)
  }

  /** `stop` is never stuck before it has visited all schedulers, each of its steps brings it nearer to
      the end, and nobody else's step sets it back. */
  lemma StopAdvances(s: State)
    requires Inv(s) && (s.stopper.Visiting? ==> s.stopper.next < |s.sch|)
    ensures Enabled(s, StopStep(s))
    ensures Shape(Next(s, StopStep(s))) && 0 <= StopWork(Next(s, StopStep(s))) < StopWork(s)
  {
    hide InboxInv, StopInv;
    ShapeKept(s, StopStep(s));
  }

  lemma OthersLeaveStop(s: State, a: Action)
    requires Inv(s) && Enabled(s, a) && !a.StopBegin? && !a.StopPush? && !a.StopRead? && !a.StopSubmit?
    ensures Next(s, a).stopper == s.stopper && Next(s, a).sent == s.sent
  {
  }

  /** Undisturbed, `stop` visits all schedulers. */
  lemma {:induction false} StopEnds(s: State) returns (acts: seq<Action>)
    requires Inv(s)
    ensures Runs(s, acts)
    ensures var s' := After(s, acts);
            Inv(s') && |s'.sch| == |s.sch| && s'.stopper.Visiting? && s'.stopper.next >= |s.sch|
    decreases if s.stopper.Visiting? && s.stopper.next >= |s.sch| then 0 else 1, StopWork(s)
  {
    hide InboxInv, QuietInv, StopInv, Next, Enabled, StopStep, StopWork;
    if s.stopper.Visiting? && s.stopper.next >= |s.sch| {
      acts := [];
    } else {
      StopAdvances(s);
      var a := StopStep(s);
      StepInv(s, a);
      ShapeKept(s, a);
      var rest := StopEnds(Next(s, a));
      Prepend(s, a, rest);
      acts := [a] + rest;
    }
  }
}
