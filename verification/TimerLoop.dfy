/**
 The timing part of a scheduler's event loop in place: the wheel, the last clock reading it
 was driven to, and the two callers of the wheel.
 */
module TimerLoops {
  import opened Basics
  import opened WheelSlots
  import WheelRuns
  import opened Sleep
  import opened TimeWheels

  class TimerLoop {
    const wheel: TimeWheel
    var last: nat

    ghost function Nodes(): set<TimerNode>
      reads wheel
    {
      wheel.nodes
    }

    ghost function State(): WheelRuns.Wheel
      reads wheel
    {
      wheel.State()
    }

    constructor (now: nat)
      ensures fresh(wheel) && wheel.Valid() && State() == WheelRuns.New() && last == now
    {
      var w := new TimeWheel();
      wheel := w;
      last := now;
    }

    /** The head of an iteration of `run`: one `tick` per elapsed millisecond. */
    method Iterate(now: nat) returns (out: seq<Handle>)
      requires wheel.Valid() && wheel.currentTick <= last
      modifies this, wheel, wheel.heads, Nodes()
      ensures wheel.Valid()
      ensures last == if now > old(last) then now else old(last)
      ensures now > old(last) ==> State() == Drive(old(State()), old(last), now).0
                                  && out == Handles(Drive(old(State()), old(last), now).1)
      ensures old(last) <= now < TWO64 ==>
        var (l, fired) := Turn(Loop(old(State()), old(last), old(last)), LoopOp.Iterate(now));
        l == Loop(State(), last, now) && out == FiredHandles(fired)
      ensures now <= old(last) ==> State() == old(State()) && out == []
    {
      hide Ticks, Handles, Rounds, ReaddsUntil;
      out := [];
      if now > last {
        ghost var w0, fired := State(), [];
        ghost var goal := Rounds(wheel.slots, wheel.currentTick, last + 1, now);
        assert fired + goal.1 == goal.1;
        HandlesAppend([], []);
        var t := last + 1;
        while t <= now
          invariant wheel.Valid() && wheel.nodes <= old(Nodes())
          invariant last == old(last) && last + 1 <= t <= now + 1
          invariant wheel.currentTick == if t == last + 1 then w0.tick else t - 1
          invariant Rounds(wheel.slots, wheel.currentTick, t, now).0 == goal.0
          invariant fired + Rounds(wheel.slots, wheel.currentTick, t, now).1 == goal.1
          invariant wheel.activeTimers + ReaddsUntil(wheel.slots, wheel.currentTick, now)
                 == w0.active + ReaddsUntil(w0.slots, w0.tick, now)
          invariant out == Handles(fired)
        {
          ghost var s, c := wheel.slots, wheel.currentTick;
          ReaddsSplit(s, c, t, now);
          RoundsUnfold(s, c, t, now);
          HandlesAppend(fired, Ticks(s, c, t).1);
          var handles := wheel.Tick(t, true);
          out := out + handles;
          fired := fired + Ticks(s, c, t).1;
          t := t + 1;
        }
        assert fired + [] == fired;
        TicksDone(wheel.slots, wheel.currentTick, now);
        RoundsDone(wheel.slots, wheel.currentTick, t, now);
        last := now;
        SameHandles(Drive(w0, old(last), now).1, now);
      } else {
        SameHandles([], now);
      }
    }

    /** `SleepAwaiter::await_suspend` on this scheduler. */
    method Suspend(node: TimerNode, now: nat, ms: nat, h: Handle)
      requires wheel.Valid() && node !in wheel.nodes && wheel.currentTick <= now && now + ms < TWO64
      modifies wheel, wheel.heads, node, Nodes()
      ensures wheel.Valid() && wheel.nodes == old(Nodes()) + {node}
      ensures State() == WheelRuns.Do(old(State()), WheelRuns.Add(Key(h, now + ms))).0
      ensures ms > 0 ==> Loop(State(), last, now) == Turn(Loop(old(State()), last, now), SleepFor(now, ms, h)).0
    {
      hide Insert, TimeWheel.Linked;
      node.expiresAt := now + ms;
      node.handle := h;
      node.added, node.moves := wheel.currentTick, 0;
      wheel.AddTimer(node);
    }
  }

  /** The handles of the firings of an iteration, in order. */
  ghost function FiredHandles(fired: seq<Firing>): seq<Handle> {
    seq(|fired|, i requires 0 <= i < |fired| => fired[i].key.handle)
  }

  lemma SameHandles(ts: seq<Timer>, at: nat)
    ensures FiredHandles(FiringsAt(WheelRuns.KeySeq(ts), at)) == Handles(ts)
    ensures Handles([]) == [] && FiredHandles([]) == []
  {
  }

  lemma RoundsUnfold(s: Slots, c: nat, t: nat, now: nat)
    requires c <= t <= now
    ensures Rounds(s, c, t, now).0 == Rounds(Ticks(s, c, t).0, t, t + 1, now).0
    ensures Rounds(s, c, t, now).1 == Ticks(s, c, t).1 + Rounds(Ticks(s, c, t).0, t, t + 1, now).1
  {
    hide Ticks;
    if c == t { TicksDone(s, c, t); }
  }

  lemma RoundsDone(s: Slots, c: nat, t: nat, now: nat)
    requires now < t
    ensures Rounds(s, c, t, now) == (s, [])
  {
  }

  lemma {:induction false} ReaddsSplit(s: Slots, c: nat, mid: nat, until: nat)
    requires c <= mid <= until
    ensures ReaddsUntil(s, c, until) == ReaddsUntil(s, c, mid) + ReaddsUntil(Ticks(s, c, mid).0, mid, until)
    decreases mid - c
  {
    hide Step, Ticks, ReaddsUntil, Readds;
    if c == mid {
      TicksDone(s, c, mid);
    } else {
      TicksUnfold(s, c, mid);
      TicksUnfold(s, c, until);
      ReaddsSplit(Step(s, c).0, c + 1, mid, until);
    }
  }
}
