/**
 What `active_timers_` counts: the pending timers, and besides them every firing and every
 re-addition of the run so far.
 */
module WheelCounter {
  import opened Basics
  import opened WheelSlots
  import opened WheelRefinement
  import opened WheelRuns
  import opened WheelTimeout
  import opened WheelOverdue

  /** Firings and re-additions of one operation. */
  function ExcessOf(w: Wheel, op: Op): nat {
    match op
    case Tick(until) => ReaddsUntil(w.slots, w.tick, until) + |Ticks(w.slots, w.tick, until).1|
    case _ => 0
  }

  /** Firings and re-additions of a run. */
  function Excess(w: Wheel, ops: seq<Op>): nat
    requires Applies(w, ops)
    decreases |ops|
  {
    if ops == [] then 0 else ExcessOf(w, ops[0]) + Excess(Do(w, ops[0]).0, ops[1..])
  }

  /** By how much the counter overstates. */
  ghost function Surplus(w: Wheel): int { w.active - |Pending(w.slots)| }

  lemma {:induction false} KeysCount(list: seq<Timer>)
    ensures |Keys(list)| == |list|
  {
    if list != [] { KeysCount(list[1..]); }
  }

  lemma OpSurplus(w: Wheel, op: Op)
    requires Applicable(w, op)
    ensures Surplus(Do(w, op).0) == Surplus(w) + ExcessOf(w, op)
  {
    hide Pending, Keys, Ticks, Insert, Without, ReaddsUntil;
    match op
    case Add(key) => InsertKeys(w.slots, Timer(key.handle, key.expires, w.tick, 0), w.tick);
    case Remove(k, i) => RemoveKeys(w.slots, k, i);
    case Tick(until) =>
      TicksConserve(w.slots, w.tick, until);
      KeysCount(Ticks(w.slots, w.tick, until).1);
  }

  /** Over every run, overdue additions included, the counter drifts from the number of pending timers
      by exactly the firings and re-additions. */
  lemma {:induction false} RunSurplus(w: Wheel, ops: seq<Op>)
    requires Applies(w, ops)
    ensures Surplus(Run(w, ops).0) == Surplus(w) + Excess(w, ops)
    decreases |ops|
  {
    hide Surplus, ExcessOf, Do;
    if ops != [] {
      OpSurplus(w, ops[0]);
      RunSurplus(Do(w, ops[0]).0, ops[1..]);
    }
  }

  /** The counter counts the pending timers if and only if the run has fired and re-added none. */
  lemma CountsPendingIff(ops: seq<Op>)
    requires Applies(New(), ops)
    ensures var w := Run(New(), ops).0;
            w.active == |Pending(w.slots)| <==> Excess(New(), ops) == 0
  {
    NewIsGood();
    RunSurplus(New(), ops);
  }

  /** Every wheel and every timer give an input at which it overstates: add the timer and let it fire. */
  lemma OverstatesAfterFiring(w: Wheel, key: Key, until: nat)
    requires Good(w) && w.tick <= key.expires < until < TWO64
    ensures var ops := [Add(key), Tick(until)];
            Runnable(w, ops) && Surplus(Run(w, ops).0) > 0
  {
    var ops := [Add(key), Tick(until)];
    AddRefines(w, key);
    var w1 := Do(w, Add(key)).0;
    SomethingFires(w1, key, until);
    hide Pending, Inv, Do;
    assert ops[1..][0] == Tick(until) && ops[1..][1..] == [];
    assert Runnable(Do(w1, Tick(until)).0, []);
    assert Runnable(w1, ops[1..]) && Runnable(w, ops);
    assert Run(w1, ops[1..]).0 == Do(w1, Tick(until)).0;
    assert Run(w, ops).0 == Run(w1, ops[1..]).0;
    OpSurplus(w1, Tick(until));
  }

  lemma SomethingFires(w: Wheel, key: Key, until: nat)
    requires Good(w) && key in Pending(w.slots) && key.expires < until < TWO64
    ensures ExcessOf(w, Tick(until)) > 0
  {
    hide Pending, Inv, Ticks, ReaddsUntil, InOrder;
    var fired := Ticks(w.slots, w.tick, until).1;
    assert fired == [] ==> multiset(KeySeq(fired)) == multiset{};
    TickRefines(w, until);
  }

  /** Once the counter overstates it does so for good and never comes back to 0, so that the event loop
      never again waits without a timeout. */
  lemma NeverUntimedAgain(w: Wheel, ops: seq<Op>, now: nat)
    requires Good(w) && Surplus(w) > 0 && Runnable(w, ops) && Run(w, ops).0.tick <= now
    ensures var w' := Run(w, ops).0;
            Surplus(w') > 0 && w'.active > 0 && Timeout(w'.slots, w'.tick, w'.active, now) <= 255
  {
    hide Good, Pending, Run, Timeout;
    RunSurplus(w, ops);
    var states := RunRefines(w, ops);
    TimeoutRange(Run(w, ops).0, now);
  }

  /** The event loop may wait without a timeout if and only if nothing is pending and nothing has ever
      been fired or re-added. */
  lemma UntimedIff(ops: seq<Op>, now: nat)
    requires Runnable(New(), ops) && Run(New(), ops).0.tick <= now
    ensures var w := Run(New(), ops).0;
            var quiet := Pending(w.slots) == multiset{} && Excess(New(), ops) == 0;
            Timeout(w.slots, w.tick, w.active, now) == INFINITE <==> quiet
  {
    hide Good, Pending, Run, Timeout, Excess;
    NewIsGood();
    var states := RunRefines(New(), ops);
    TimeoutRange(Run(New(), ops).0, now);
    CountsPendingIff(ops);
  }
}
