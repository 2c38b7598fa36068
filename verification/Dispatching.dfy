/**
 What a dispatch achieves: every accepted push is a task in the target's inbox until the target takes
 it out, and a blocked target is woken by it.
 */
module Dispatching {
  import opened Basics
  import opened Wakeup
  import opened Paths

  /** The step pushes a task to scheduler `t`. */
  predicate PushesTo(s: State, a: Action, t: nat) {
    match a
    case ExtPush(_, target) => target == t
    case SchedPush(_, target) => target == t
    case StopPush => s.stopper.Visiting? && s.stopper.next == t
    case _ => false
  }

  /** The length of an inbox changes by exactly the accepted pushes, those that find room, and the
      target's own pops. */
  lemma InboxCounts(s: State, a: Action, t: nat)
    requires Inv(s) && Enabled(s, a) && t < |s.sch|
    ensures var s' := Next(s, a);
            && |s'.sch| == |s.sch|
            && s'.sch[t].inbox == s.sch[t].inbox
                 + (if PushesTo(s, a, t) && s.sch[t].inbox < s.capacity then 1 else 0)
                 - (if a == PopInbox(t) then 1 else 0)
  {
    hide InboxInv, StopInv;
    ShapeKept(s, a);
  }

  /** A refused push changes nothing but the place of `stop`; after an accepted one the dispatcher owes
      the target a message. */
  lemma PushOwes(s: State, a: Action, t: nat)
    requires Inv(s) && Enabled(s, a) && t < |s.sch| && PushesTo(s, a, t)
    ensures Shape(Next(s, a)) && |Next(s, a).sch| == |s.sch|
    ensures s.sch[t].inbox < s.capacity ==> WakeupDue(Next(s, a), t)
    ensures s.sch[t].inbox >= s.capacity ==> Next(s, a) == s.(stopper := Next(s, a).stopper)
  {
    hide InboxInv, StopInv;
    ShapeKept(s, a);
    var s' := Next(s, a);
    match a
    case ExtPush(d, _) =>
      if s.sch[t].inbox < s.capacity { assert ThreadOwes(s'.ext[d], t); }
    case SchedPush(i, _) =>
      if s.sch[t].inbox < s.capacity { assert SchedOwes(s'.sch[i], t); }
    case StopPush =>
  }

  /** How a wait ends: an untimed one by a completion only, a timed one also by itself, and either by a
      signal, which leads back to the head of the loop; otherwise the completions are walked. */
  lemma WaitEnds(s: State, i: nat)
    requires Inv(s) && i < |s.sch|
    ensures s.sch[i].pc == Wait(true) ==> (Enabled(s, Wake(i)) <==> s.sch[i].cq != [])
    ensures s.sch[i].pc == Wait(false) ==> Enabled(s, Wake(i))
    ensures s.sch[i].pc.Wait? ==> Enabled(s, Interrupted(i)) && Next(s, Interrupted(i)).sch[i].pc == Top
    ensures Enabled(s, Wake(i)) ==> Next(s, Wake(i)).sch[i].pc == Poll
    ensures Shape(Next(s, Complete(i))) && (s.sch[i].pc.Wait? ==> Enabled(Next(s, Complete(i)), Wake(i)))
    ensures forall untimed :: Enabled(s, SubmitAll(i, untimed)) ==>
              Next(s, SubmitAll(i, untimed)).sch[i].pc == Wait(untimed)
  {
    ShapeKept(s, Complete(i));
  }

  /** A scheduler that neither blocks without a completion nor has left always has a step of its own. */
  lemma SchedulerAdvances(s: State, i: nat) returns (a: Action)
    requires Inv(s) && i < |s.sch| && s.sch[i].pc != Done && !(s.sch[i].pc == Wait(true) && s.sch[i].cq == [])
    ensures Enabled(s, a) && Next(s, a) != s
  {
    hide InboxInv, StopInv;
    var x := s.sch[i];
    if x.dispatching.Some? {
      a := SchedNotify(i, false);
    } else {
      match x.pc {
        case Init => a := Enter(i);
        case Top => a := CheckFlag(i);
        case Drain(_) => a := if x.inbox > 0 then PopInbox(i) else DrainDone(i);
        case Dequeue => a := TakeBatch(i, true);
        case RunBatch => a := BatchDone(i);
        case Submit => a := SubmitAll(i, true);
        case Wait(_) => a := Wake(i);
        case Poll => a := if x.cq != [] then TakeCqe(i) else PollDone(i);
      }
    }
    assert Next(s, a).sch[i] != s.sch[i];
  }

  /** An external dispatch from end to end: the target is blocked with its ring in place and has room; the
      dispatcher's three steps, the delivery and three steps of the target later it takes the task out. */
  lemma DispatchRuns(s: State, d: nat, t: nat)
    requires Inv(s) && d < |s.ext| && s.ext[d] == Idle && t < |s.sch|
    requires s.sch[t].pc.Wait? && s.sch[t].cq == [] && s.sch[t].inbox < s.capacity
    ensures var acts := [ExtPush(d, t)]
              + ([ExtRead(d)] + ([ExtSubmit(d)] + ([Deliver(t)] + ([Wake(t)] + ([TakeCqe(t)] + [])))));
            && Runs(s, acts)
            && var s' := After(s, acts);
            && |s'.sch| == |s.sch| && |s'.ext| == |s.ext|
            && s'.sch[t].inbox == s.sch[t].inbox + 1 && s'.sch[t].pc == Drain(true)
            && Enabled(s', PopInbox(t)) && s'.ext[d] == Idle
  {
    hide InboxInv, StopInv;
    var x := s.sch[t];
    assert x.dispatching == None;
    hide QuietInv, Runs, After;
    var in1 := x.(inbox := x.inbox + 1);
    var s1 := s.(sch := s.sch[t := in1], ext := s.ext[d := Pushed(t)]);
    var s2 := s1.(ext := s1.ext[d := Notifying(t)]);
    var s3 := s2.(ext := s2.ext[d := Idle], flight := s.flight[t := s.flight[t] + 1]);
    var s4 := s3.(flight := s.flight, sch := s.sch[t := in1.(cq := [InboxCqe])]);
    var s5 := s4.(sch := s.sch[t := in1.(cq := [InboxCqe], pc := Poll)]);
    var s6 := s5.(sch := s.sch[t := in1.(cq := [], pc := Drain(true))]);
    FirstThree(s, d, t, s1, s2, s3);
    LastThree(s3, t, s4, s5, s6);
    hide Next, Enabled, Shape;
    Stay(s6);
    Go(s5, TakeCqe(t), s6, [], s6);
    Go(s4, Wake(t), s5, [TakeCqe(t)] + [], s6);
    Go(s3, Deliver(t), s4, [Wake(t)] + ([TakeCqe(t)] + []), s6);
    Go(s2, ExtSubmit(d), s3, [Deliver(t)] + ([Wake(t)] + ([TakeCqe(t)] + [])), s6);
    Go(s1, ExtRead(d), s2, [ExtSubmit(d)] + ([Deliver(t)] + ([Wake(t)] + ([TakeCqe(t)] + []))), s6);
    Go(s, ExtPush(d, t), s1,
       [ExtRead(d)] + ([ExtSubmit(d)] + ([Deliver(t)] + ([Wake(t)] + ([TakeCqe(t)] + [])))), s6);
    CanPop(s6, t);
    var acts := [ExtPush(d, t)]
      + ([ExtRead(d)] + ([ExtSubmit(d)] + ([Deliver(t)] + ([Wake(t)] + ([TakeCqe(t)] + [])))));
    assert Runs(s, acts) && After(s, acts) == s6;
  }

  lemma CanPop(s: State, t: nat)
    requires Shape(s) && t < |s.sch| && s.sch[t].dispatching == None && s.sch[t].pc == Drain(true)
    requires s.sch[t].inbox > 0
    ensures Enabled(s, PopInbox(t))
  {
  }

  lemma FirstThree(s: State, d: nat, t: nat, s1: State, s2: State, s3: State)
    requires Shape(s) && d < |s.ext| && s.ext[d] == Idle && t < |s.sch|
    requires s.sch[t].pc.Wait? && s.sch[t].inbox < s.capacity
    requires s1 == s.(sch := s.sch[t := s.sch[t].(inbox := s.sch[t].inbox + 1)], ext := s.ext[d := Pushed(t)])
    requires s2 == s1.(ext := s1.ext[d := Notifying(t)])
    requires s3 == s2.(ext := s2.ext[d := Idle], flight := s.flight[t := s.flight[t] + 1])
    ensures Shape(s1) && Shape(s2) && Shape(s3)
    ensures Enabled(s, ExtPush(d, t)) && Next(s, ExtPush(d, t)) == s1
    ensures Enabled(s1, ExtRead(d)) && Next(s1, ExtRead(d)) == s2
    ensures Enabled(s2, ExtSubmit(d)) && Next(s2, ExtSubmit(d)) == s3
  {
  }

  lemma LastThree(s: State, t: nat, s1: State, s2: State, s3: State)
    requires Shape(s) && t < |s.sch| && s.flight[t] > 0
    requires s.sch[t].pc.Wait? && s.sch[t].cq == [] && s.sch[t].dispatching == None
    requires s1 == s.(flight := s.flight[t := s.flight[t] - 1], sch := s.sch[t := s.sch[t].(cq := [InboxCqe])])
    requires s2 == s1.(sch := s.sch[t := s.sch[t].(cq := [InboxCqe], pc := Poll)])
    requires s3 == s2.(sch := s.sch[t := s.sch[t].(cq := [], pc := Drain(true))])
    ensures Shape(s1) && Shape(s2) && Shape(s3)
    ensures Enabled(s, Deliver(t)) && Next(s, Deliver(t)) == s1
    ensures Enabled(s1, Wake(t)) && Next(s1, Wake(t)) == s2
    ensures Enabled(s2, TakeCqe(t)) && Next(s2, TakeCqe(t)) == s3
  {
    assert [] + [InboxCqe] == [InboxCqe] && [InboxCqe][1..] == [];
  }
}
