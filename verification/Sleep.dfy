/**
 Sleeping from end to end: the event loop reads a monotone clock, ticks the wheel one
 millisecond at a time up to that reading, and coroutines that sleep register
 `clock + ms` in the wheel.
 */
module Sleep {
  import opened Basics
  import opened WheelSlots
  import opened WheelRefinement
  import opened WheelRuns

  // --- Millisecond by millisecond ---------------------------------------------------------

  /** The `for` loop of `run`: `tick(t)` for t = from, ..., now. */
  function Rounds(s: Slots, c: nat, from: nat, now: nat): (Slots, seq<Timer>)
    decreases now + 1 - from
  {
    if now < from then (s, []) else
    var (s1, fired) := Ticks(s, c, from);
    var (s2, later) := Rounds(s1, if c < from then from else c, from + 1, now);
    (s2, fired + later)
  }

  lemma {:induction false} TicksSplit(s: Slots, c: nat, mid: nat, until: nat)
    requires c <= mid <= until
    ensures var (s1, a) := Ticks(s, c, mid);
            var (s2, b) := Ticks(s1, mid, until);
            Ticks(s, c, until) == (s2, a + b)
    decreases mid - c
  {
    hide Step, Ticks;
    if c == mid {
      TicksDone(s, c, mid);
      assert [] + Ticks(s, mid, until).1 == Ticks(s, mid, until).1;
    } else {
      var (s1, fired) := Step(s, c);
      TicksUnfold(s, c, mid);
      TicksUnfold(s, c, until);
      TicksSplit(s1, c + 1, mid, until);
      var a := Ticks(s1, c + 1, mid).1;
      var b := Ticks(Ticks(s1, c + 1, mid).0, mid, until).1;
      assert (fired + a) + b == fired + (a + b);
    }
  }

  /** Ticking millisecond by millisecond is one `tick(now)`. */
  lemma {:induction false} RoundsAreOneTick(s: Slots, c: nat, from: nat, now: nat)
    requires c <= from <= now
    ensures Rounds(s, c, from, now) == Ticks(s, c, now)
    decreases now - from
  {
    hide Ticks;
    var (s1, fired) := Ticks(s, c, from);
    TicksSplit(s, c, from, now);
    if from < now {
      RoundsAreOneTick(s1, from, from + 1, now);
    } else {
      TicksDone(s1, from, now);
    }
  }

  // --- Runs of the event loop -------------------------------------------------------------

  /** One scheduler's view: its wheel, the last clock reading the wheel was driven to, and the
      clock. */
  datatype Loop = Loop(wheel: Wheel, last: nat, clock: nat)

  datatype LoopOp =
    | SleepFor(now: nat, ms: nat, handle: Handle)
    | Iterate(now: nat)

  datatype Firing = Firing(key: Key, at: nat)

  /** At the start of `run` the wheel is new and both times are the first clock reading. */
  function Started(now: nat): Loop { Loop(New(), now, now) }

  /** The clock is monotone and no expiry overflows. */
  predicate Allowed(l: Loop, op: LoopOp) {
    match op
    case SleepFor(now, ms, handle) => l.clock <= now && now + ms < TWO64
    case Iterate(now) => l.clock <= now < TWO64
  }

  function FiringsAt(keys: seq<Key>, at: nat): seq<Firing> {
    seq(|keys|, i requires 0 <= i < |keys| => Firing(keys[i], at))
  }

  /** The wheel driven from the last reading to the new one. */
  function Drive(w: Wheel, last: nat, now: nat): (Wheel, seq<Timer>) {
    var (s, fired) := Rounds(w.slots, w.tick, last + 1, now);
    (Wheel(s, if w.tick < now then now else w.tick, w.active + ReaddsUntil(w.slots, w.tick, now)), fired)
  }

  /** A sleep of 0 ms does not suspend; an iteration with an unchanged clock does not tick. */
  function Turn(l: Loop, op: LoopOp): (Loop, seq<Firing>)
    requires Allowed(l, op) && l.wheel.tick <= l.clock
  {
    match op
    case SleepFor(now, ms, handle) =>
      if ms == 0 then (l.(clock := now), [])
      else (Loop(Do(l.wheel, Add(Key(handle, now + ms))).0, l.last, now), [])
    case Iterate(now) =>
      if now > l.last then
        var (w, fired) := Drive(l.wheel, l.last, now);
        (Loop(w, now, now), FiringsAt(KeySeq(fired), now))
      else (l.(clock := now), [])
  }

  /** The wheel never runs ahead of the loop, nor the loop of the clock, and whatever is still
      pending is not due yet. */
  ghost predicate InStep(l: Loop) {
    && Good(l.wheel)
    && l.wheel.tick <= l.last <= l.clock < TWO64
    && (forall key :: key in Pending(l.wheel.slots) ==> l.last <= key.expires)
  }

  function SleepKey(op: LoopOp): seq<Key> {
    if op.SleepFor? && op.ms > 0 then [Key(op.handle, op.now + op.ms)] else []
  }

  ghost predicate OnTime(fired: seq<Firing>) {
    forall i :: 0 <= i < |fired| ==> fired[i].key.expires < fired[i].at
  }

  function KeysFired(fired: seq<Firing>): seq<Key> {
    seq(|fired|, i requires 0 <= i < |fired| => fired[i].key)
  }

  lemma StartInStep(now: nat)
    requires now < TWO64
    ensures InStep(Started(now)) && Pending(Started(now).wheel.slots) == multiset{}
  {
    NewIsGood();
  }

  lemma SleepTurn(l: Loop, op: LoopOp)
    requires InStep(l) && Allowed(l, op) && op.SleepFor?
    ensures InStep(Turn(l, op).0) && Turn(l, op).1 == []
    ensures Pending(Turn(l, op).0.wheel.slots) == Pending(l.wheel.slots) + multiset(SleepKey(op))
  {
    hide Inv, Pending, Insert;
    if op.ms > 0 {
      AddRefines(l.wheel, Key(op.handle, op.now + op.ms));
    }
  }

  lemma IterateTurn(l: Loop, op: LoopOp)
    requires InStep(l) && Allowed(l, op) && op.Iterate?
    ensures var (l', fired) := Turn(l, op);
            && InStep(l')
            && OnTime(fired)
            && Pending(l.wheel.slots) == Pending(l'.wheel.slots) + multiset(KeysFired(fired))
  {
    hide Inv, Pending, Ticks, Rounds, ReaddsUntil, Drive, Do, InOrder;
    if op.now > l.last {
      DriveIsTick(l.wheel, l.last, op.now);
      TickRefines(l.wheel, op.now);
      var keys := KeySeq(Drive(l.wheel, l.last, op.now).1);
      assert KeysFired(FiringsAt(keys, op.now)) == keys;
    } else {
      assert KeysFired([]) == [];
    }
  }

  /** The loop of ticks up to the clock is one tick of the wheel. */
  lemma DriveIsTick(w: Wheel, last: nat, now: nat)
    requires w.tick <= last < now < TWO64
    ensures var (w', fired) := Drive(w, last, now);
            Do(w, Tick(now)) == (w', Ticked(now, KeySeq(fired)))
  {
    hide Ticks, Rounds, ReaddsUntil, KeySeq;
    RoundsAreOneTick(w.slots, w.tick, last + 1, now);
  }

  predicate Schedulable(l: Loop, ops: seq<LoopOp>)
    decreases |ops|
  {
    ops == [] || (Allowed(l, ops[0]) && l.wheel.tick <= l.clock && Schedulable(Turn(l, ops[0]).0, ops[1..]))
  }

  /** All clock readings are monotone from `clock` on, and no expiry overflows. */
  predicate Monotone(clock: nat, ops: seq<LoopOp>)
    decreases |ops|
  {
    ops == [] ||
    (clock <= ops[0].now < TWO64 && (ops[0].SleepFor? ==> ops[0].now + ops[0].ms < TWO64)
     && Monotone(ops[0].now, ops[1..]))
  }

  function LoopRun(l: Loop, ops: seq<LoopOp>): (Loop, seq<Firing>)
    requires Schedulable(l, ops)
    decreases |ops|
  {
    if ops == [] then (l, []) else
    var (l1, fired) := Turn(l, ops[0]);
    var (l2, later) := LoopRun(l1, ops[1..]);
    (l2, fired + later)
  }

  function Sleeps(ops: seq<LoopOp>): seq<Key> {
    if ops == [] then [] else SleepKey(ops[0]) + Sleeps(ops[1..])
  }

  lemma TurnInStep(l: Loop, op: LoopOp)
    requires InStep(l) && Allowed(l, op)
    ensures var (l', fired) := Turn(l, op);
            && InStep(l') && l'.clock == op.now
            && OnTime(fired)
            && Pending(l.wheel.slots) + multiset(SleepKey(op)) == Pending(l'.wheel.slots) + multiset(KeysFired(fired))
  {
    hide InStep, Pending, Rounds, Ticks, Insert, ReaddsUntil;
    if op.SleepFor? {
      SleepTurn(l, op);
      assert KeysFired([]) == [];
    } else {
      IterateTurn(l, op);
    }
  }

  lemma KeysFiredAppend(a: seq<Firing>, b: seq<Firing>)
    ensures KeysFired(a + b) == KeysFired(a) + KeysFired(b)
  {
  }

  lemma Balance(p: multiset<Key>, a: multiset<Key>, b: multiset<Key>, p1: multiset<Key>, f: multiset<Key>,
                p2: multiset<Key>, g: multiset<Key>)
    requires p + a == p1 + f && p1 + b == p2 + g
    ensures p + (a + b) == p2 + (f + g)
  {
    assert p + (a + b) == (p + a) + b;
    assert (p1 + f) + b == (p1 + b) + f;
    assert (p2 + g) + f == p2 + (f + g);
  }

  /** Over every run with a monotone clock: the loop is never out of step, so no timer is ever
      added overdue; every nonzero sleep is either still pending or was scheduled, exactly once;
      and what was scheduled had slept for its full time. */
  lemma {:induction false} SleepEndToEnd(l: Loop, ops: seq<LoopOp>)
    requires InStep(l) && Monotone(l.clock, ops)
    ensures Schedulable(l, ops)
    ensures var (l', fired) := LoopRun(l, ops);
            && InStep(l')
            && OnTime(fired)
            && Pending(l.wheel.slots) + multiset(Sleeps(ops)) == Pending(l'.wheel.slots) + multiset(KeysFired(fired))
    decreases |ops|
  {
    hide Pending, Turn, Good;
    if ops == [] {
      assert KeysFired([]) == [];
    } else {
      var (l1, fired) := Turn(l, ops[0]);
      TurnInStep(l, ops[0]);
      SleepEndToEnd(l1, ops[1..]);
      var (l2, later) := LoopRun(l1, ops[1..]);
      KeysFiredAppend(fired, later);
      Balance(Pending(l.wheel.slots), multiset(SleepKey(ops[0])), multiset(Sleeps(ops[1..])),
              Pending(l1.wheel.slots), multiset(KeysFired(fired)),
              Pending(l2.wheel.slots), multiset(KeysFired(later)));
      assert multiset(Sleeps(ops)) == multiset(SleepKey(ops[0])) + multiset(Sleeps(ops[1..]));
    }
  }

  // --- Nothing due is left waiting -----------------------------------------------------------

  /** The clock reading the wheel has been driven to: the latest one an iteration has seen. */
  function LatestReading(last: nat, ops: seq<LoopOp>): nat
    decreases |ops|
  {
    if ops == [] then last
    else LatestReading(if ops[0].Iterate? && ops[0].now > last then ops[0].now else last, ops[1..])
  }

  ghost predicate FiredBefore(fired: seq<Firing>, time: nat) {
    forall i :: 0 <= i < |fired| ==> fired[i].key.expires < time
  }

  /** An iteration that sees the clock advance drives the wheel to it: what is due by then fires, at that
      reading, and what stays pending is not due. */
  lemma TurnPrompt(l: Loop, op: LoopOp)
    requires InStep(l) && Allowed(l, op)
    ensures var (l', fired) := Turn(l, op);
            && l'.last == LatestReading(l.last, [op])
            && (forall key :: key in Pending(l'.wheel.slots) ==> l'.last <= key.expires)
            && FiredBefore(fired, l'.last)
            && (forall i :: 0 <= i < |fired| ==> fired[i].at == l'.last)
  {
    TurnInStep(l, op);
    hide Pending, Good, Drive, Do;
    assert LatestReading(l.last, [op]) == if op.Iterate? && op.now > l.last then op.now else l.last by {
      assert [op][1..] == [];
    }
  }

  lemma {:induction false} RunPrompt(l: Loop, ops: seq<LoopOp>)
    requires InStep(l) && Monotone(l.clock, ops)
    ensures Schedulable(l, ops)
    ensures var (l', fired) := LoopRun(l, ops);
            InStep(l') && l.last <= l'.last == LatestReading(l.last, ops) && FiredBefore(fired, l'.last)
    decreases |ops|
  {
    hide Pending, Turn, Good;
    if ops != [] {
      TurnInStep(l, ops[0]);
      TurnPrompt(l, ops[0]);
      assert [ops[0]][1..] == [];
      RunPrompt(Turn(l, ops[0]).0, ops[1..]);
    }
  }

  /** Over every run with a monotone clock, from any loop in step: the timers scheduled are exactly those
      that expire before the latest reading an iteration has seen, each as often as it was added. */
  lemma ExactlyDue(l: Loop, ops: seq<LoopOp>, key: Key)
    requires InStep(l) && Monotone(l.clock, ops)
    ensures Schedulable(l, ops)
    ensures var added := Pending(l.wheel.slots) + multiset(Sleeps(ops));
            multiset(KeysFired(LoopRun(l, ops).1))[key]
              == if key.expires < LatestReading(l.last, ops) then added[key] else 0
  {
    SleepEndToEnd(l, ops);
    RunPrompt(l, ops);
    var (l', fired) := LoopRun(l, ops);
    hide LoopRun, Pending, Schedulable, Monotone, Good, Sleeps;
    assert (Pending(l.wheel.slots) + multiset(Sleeps(ops)))[key]
        == Pending(l'.wheel.slots)[key] + multiset(KeysFired(fired))[key];
    if key.expires < l'.last {
      assert key !in Pending(l'.wheel.slots);
    } else {
      assert key !in KeysFired(fired);
    }
  }

  /** From the start of the event loop: the sleeps scheduled are exactly those whose time was up. */
  lemma SleepsWake(start: nat, ops: seq<LoopOp>, key: Key)
    requires start < TWO64 && Monotone(start, ops)
    ensures Schedulable(Started(start), ops)
    ensures multiset(KeysFired(LoopRun(Started(start), ops).1))[key]
         == if key.expires < LatestReading(start, ops) then multiset(Sleeps(ops))[key] else 0
  {
    StartInStep(start);
    ExactlyDue(Started(start), ops, key);
    assert multiset{} + multiset(Sleeps(ops)) == multiset(Sleeps(ops));
  }
}
