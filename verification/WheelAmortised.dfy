/**
 The amortised cost of cascading.  Each timer is re-added at most 4 + (expires - added) / 2^32
 times, and the counter `active_timers_`, which counts every addition and every re-addition,
 is bounded over a whole run by the sum of those budgets.
 */
module WheelAmortised {
  import opened Basics
  import opened WheelSlots
  import opened WheelRefinement
  import opened WheelRuns

  /** Cascades a timer may still see. */
  function Left(t: Timer): int {
    if t.added <= t.expires then MoveBudget(t.expires, t.added) - t.moves else 0
  }

  ghost function Slack(list: seq<Timer>): int {
    if list == [] then 0 else Left(list[0]) + Slack(list[1..])
  }

  ghost function TotalSlack(s: seq<seq<Timer>>): int {
    if s == [] then 0 else Slack(s[0]) + TotalSlack(s[1..])
  }

  lemma {:induction false} SlackUpdate(s: seq<seq<Timer>>, k: nat, list: seq<Timer>)
    requires k < |s|
    ensures TotalSlack(s[k := list]) == TotalSlack(s) - Slack(s[k]) + Slack(list)
  {
    hide Slack;
    var s' := s[k := list];
    if k == 0 {
      assert s'[1..] == s[1..];
    } else {
      assert s'[1..] == s[1..][k - 1 := list];
      SlackUpdate(s[1..], k - 1, list);
    }
  }

  lemma {:induction false} SlackNonNegative(list: seq<Timer>)
    requires WithinBudget(list)
    ensures Slack(list) >= 0
  {
    if list != [] { SlackNonNegative(list[1..]); }
  }

  lemma {:induction false} TotalSlackNonNegative(s: seq<seq<Timer>>)
    requires forall k :: 0 <= k < |s| ==> WithinBudget(s[k])
    ensures TotalSlack(s) >= 0
  {
    if s != [] {
      SlackNonNegative(s[0]);
      TotalSlackNonNegative(s[1..]);
    }
  }

  lemma InvSlack(s: Slots, c: nat)
    requires Inv(s, c)
    ensures TotalSlack(s) >= 0
  {
    InvBounds(s, c);
    forall k | 0 <= k < SLOTS ensures WithinBudget(s[k]) {}
    TotalSlackNonNegative(s);
  }

  lemma InsertSlack(s: Slots, t: Timer, c: nat)
    ensures TotalSlack(Insert(s, t, c)) == TotalSlack(s) + Left(t)
  {
    var k := SlotFor(t.expires, c);
    SlackUpdate(s, k, [t] + s[k]);
    assert ([t] + s[k])[1..] == s[k];
  }

  ghost predicate Sane(list: seq<Timer>) {
    forall i :: 0 <= i < |list| ==> list[i].added <= list[i].expires
  }

  /** Every re-addition costs one unit of slack. */
  lemma {:induction false} ReAddSlack(s: Slots, list: seq<Timer>, c: nat)
    requires Sane(list)
    ensures TotalSlack(ReAdd(s, list, c)) == TotalSlack(s) + Slack(list) - |list|
    decreases |list|
  {
    if list != [] {
      hide Insert;
      InsertSlack(s, list[0].Moved(), c);
      ReAddSlack(Insert(s, list[0].Moved(), c), list[1..], c);
    }
  }

  ghost predicate AllSane(s: Slots) {
    forall k :: 0 <= k < SLOTS ==> Sane(s[k])
  }

  lemma {:induction false} ReAddSane(s: Slots, list: seq<Timer>, c: nat)
    requires AllSane(s) && Sane(list)
    ensures AllSane(ReAdd(s, list, c))
    decreases |list|
  {
    if list != [] {
      var t := list[0].Moved();
      var k := SlotFor(t.expires, c);
      assert Sane(s[k]);
      assert Sane([t] + s[k]);
      ReAddSane(Insert(s, t, c), list[1..], c);
    }
  }

  lemma CascadeSlack(s: Slots, l: Level, c: nat)
    requires AllSane(s)
    ensures AllSane(Cascade(s, l, c))
    ensures TotalSlack(Cascade(s, l, c)) == TotalSlack(s) - |s[SlotAt(l, c)]|
  {
    hide Sane;
    var k := SlotAt(l, c);
    var empty: seq<Timer> := [];
    assert Sane(empty) by { NothingSane(); }
    assert AllSane(s[k := []]);
    SlackUpdate(s, k, []);
    ReAddSlack(s[k := []], s[k], c);
    ReAddSane(s[k := []], s[k], c);
  }

  lemma NothingSane()
    ensures Sane([])
  {}

  lemma {:induction false} CascadesSlack(s: Slots, l: Level, c: nat)
    requires l >= 2 && AllSane(s)
    ensures AllSane(CascadesFrom(s, l, c))
    ensures TotalSlack(CascadesFrom(s, l, c)) == TotalSlack(s) - ReaddsFrom(s, l, c)
    decreases 5 - l
  {
    hide AllSane, Cascade, TotalSlack;
    CascadeSlack(s, l, c);
    if l < 5 && SlotAt(l, c) == Base(l) {
      CascadesSlack(Cascade(s, l, c), l + 1, c);
    }
  }

  lemma StepSlack(s: Slots, c: nat)
    requires AllSane(s)
    ensures var (s', fired) := Step(s, c);
            TotalSlack(s') == TotalSlack(s) - Readds(s, c) - Slack(fired)
  {
    hide AllSane, CascadesFrom, ReaddsFrom, Slack, TotalSlack;
    if c % 256 == 0 && c > 0 { CascadesSlack(s, 2, c); }
    SlackUpdate(Cascades(s, c), c % 256, []);
    NoSlack();
  }

  lemma NoSlack()
    ensures Slack([]) == 0
  {}

  lemma InvSane(s: Slots, c: nat)
    requires Inv(s, c)
    ensures AllSane(s)
  {
    InvBounds(s, c);
    forall k | 0 <= k < SLOTS ensures Sane(s[k]) {}
  }

  lemma {:induction false} TicksSlack(s: Slots, c: nat, until: nat)
    requires Inv(s, c)
    ensures TotalSlack(Ticks(s, c, until).0) + ReaddsUntil(s, c, until) <= TotalSlack(s)
    decreases until - c
  {
    hide Inv, AllSane, Readds, Slack, TotalSlack, Step, Ticks, ReaddsUntil, WithinBudget;
    if c < until {
      InvSane(s, c);
      StepSlack(s, c);
      StepRefines(s, c);
      SlackNonNegative(Step(s, c).1);
      TicksSlack(Step(s, c).0, c + 1, until);
      TicksUnfold(s, c, until);
    } else {
      TicksDone(s, c, until);
    }
  }

  // --- Over whole runs ------------------------------------------------------------------

  /** What the additions of a run allow the counter: one for the addition itself and the
      timer's cascade budget. */
  function Allowance(w: Wheel, ops: seq<Op>): nat
    requires Runnable(w, ops)
    decreases |ops|
  {
    if ops == [] then 0 else
    (if ops[0].Add? then 1 + MoveBudget(ops[0].key.expires, w.tick) else 0)
      + Allowance(Do(w, ops[0]).0, ops[1..])
  }

  lemma {:induction false} DropSlack(list: seq<Timer>, i: nat)
    requires i < |list|
    ensures Slack(Without(list, i)) == Slack(list) - Left(list[i])
  {
    if i == 0 {
      assert Without(list, 0) == list[1..];
    } else {
      assert Without(list, i)[1..] == Without(list[1..], i - 1);
      DropSlack(list[1..], i - 1);
    }
  }

  lemma OpSlack(w: Wheel, op: Op)
    requires Good(w) && Enabled(w, op)
    ensures var w' := Do(w, op).0;
            w'.active + TotalSlack(w'.slots) <= w.active + TotalSlack(w.slots)
              + if op.Add? then 1 + MoveBudget(op.key.expires, w.tick) else 0
  {
    hide Inv, Slack, TotalSlack, Ticks, ReaddsUntil, Insert, Pending, Without;
    match op
    case Add(key) =>
      InsertSlack(w.slots, Timer(key.handle, key.expires, w.tick, 0), w.tick);
    case Remove(k, i) =>
      SlackUpdate(w.slots, k, Without(w.slots[k], i));
      DropSlack(w.slots[k], i);
      InvBounds(w.slots, w.tick);
    case Tick(until) =>
      TicksSlack(w.slots, w.tick, until);
  }

  /** Over every run the counter never exceeds what the additions allow, and never falls below
      the number of pending timers. */
  lemma {:induction false} CounterBounds(w: Wheel, ops: seq<Op>)
    requires Good(w) && Runnable(w, ops)
    ensures var w' := Run(w, ops).0;
            |Pending(w'.slots)| <= w'.active <= w.active + TotalSlack(w.slots) + Allowance(w, ops)
    decreases |ops|
  {
    hide TotalSlack, Pending, Inv, Do;
    if ops == [] {
      InvSlack(w.slots, w.tick);
    } else {
      DoRefines(w, ops[0]);
      OpSlack(w, ops[0]);
      CounterBounds(Do(w, ops[0]).0, ops[1..]);
    }
  }

  lemma {:induction false} NothingPending(s: seq<seq<Timer>>)
    requires forall k :: 0 <= k < |s| ==> s[k] == []
    ensures TotalSlack(s) == 0
  {
    if s != [] { NothingPending(s[1..]); }
  }

  /** From a new wheel: the counter is bounded by the additions alone, each with its own budget. */
  lemma CounterFromNew(ops: seq<Op>)
    requires Runnable(New(), ops)
    ensures var w := Run(New(), ops).0;
            |Pending(w.slots)| <= w.active <= Allowance(New(), ops)
  {
    NewIsGood();
    NothingPending(Empty());
    CounterBounds(New(), ops);
  }
}
