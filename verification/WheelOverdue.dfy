/**
 Timers that are overdue when they are added.  The distance to the current tick is an unsigned
 64-bit difference, so an overdue timer is treated in every respect as one that expires 2^64 ticks
 later: it is pending for good, and nothing else is disturbed.
 */
module WheelOverdue {
  import opened Basics
  import opened RingMath
  import opened WheelSlots
  import opened WheelRefinement
  import opened WheelRuns

  // --- Expiries modulo 2^64 -----------------------------------------------------------------

  function Wrap(t: Timer): Timer { t.(expires := t.expires % TWO64) }

  function WrapList(list: seq<Timer>): seq<Timer> {
    seq(|list|, i requires 0 <= i < |list| => Wrap(list[i]))
  }

  function WrapSlots(s: Slots): Slots {
    seq(SLOTS, k requires 0 <= k < SLOTS => WrapList(s[k]))
  }

  /** 2^64 is a whole number of revolutions of every level. */
  lemma SameSlotAt(l: Level, e: nat)
    ensures SlotAt(l, e % TWO64) == SlotAt(l, e)
  {
    var q, r := e / TWO64, e % TWO64;
    if l == 1 {
      SameByte(e);
    } else if l == 2 {
      Quotient(q * 0x4_0000_0000_0000, r, 0x100);
    } else if l == 3 {
      Quotient(q * 0x1000_0000_0000, r, 0x4000);
    } else if l == 4 {
      Quotient(q * 0x40_0000_0000, r, 0x10_0000);
    } else {
      Quotient(q * 0x1_0000_0000, r, 0x400_0000);
    }
  }

  lemma SameByte(e: nat)
    ensures (e % TWO64) % 256 == e % 256
  {
    assert e == 0x100 * (e / TWO64 * 0x100_0000_0000_0000) + e % TWO64;
  }

  /** Adding a multiple of 64 slots does not change the index of a slot. */
  lemma Quotient(m: nat, r: nat, g: nat)
    requires g > 0
    ensures ((m * 64 * g + r) / g) % 64 == (r / g) % 64
  {
    var j := r / g;
    assert m * 64 * g + r == g * (m * 64 + j) + r % g;
    RemainderIs(m * 64 * g + r, g, m * 64 + j, r % g);
    var d := (m * 64 * g + r) / g;
    assert m * 64 * g + r == g * d + r % g;
    assert g * (d - (m * 64 + j)) == 0;
    SmallMultiple(g, d - (m * 64 + j));
  }

  lemma SameDistance(e: nat, c: nat)
    ensures (e % TWO64 - c) % TWO64 == (e - c) % TWO64
  {
  }

  lemma SameSlot(e: nat, c: nat)
    ensures SlotFor(e % TWO64, c) == SlotFor(e, c)
  {
    SameDistance(e, c);
    SameSlotAt(LevelFor((e - c) % TWO64), e);
  }

  lemma WrapInsert(s: Slots, t: Timer, c: nat)
    ensures Insert(WrapSlots(s), Wrap(t), c) == WrapSlots(Insert(s, t, c))
  {
    SameSlot(t.expires, c);
    var k := SlotFor(t.expires, c);
    hide SlotFor;
    assert [Wrap(t)] + WrapList(s[k]) == WrapList([t] + s[k]);
  }

  lemma {:induction false} WrapReAdd(s: Slots, list: seq<Timer>, c: nat)
    ensures ReAdd(WrapSlots(s), WrapList(list), c) == WrapSlots(ReAdd(s, list, c))
    decreases |list|
  {
    hide Insert, WrapSlots;
    if list != [] {
      assert WrapList(list)[0].Moved() == Wrap(list[0].Moved());
      assert WrapList(list)[1..] == WrapList(list[1..]);
      WrapInsert(s, list[0].Moved(), c);
      WrapReAdd(Insert(s, list[0].Moved(), c), list[1..], c);
    }
  }

  lemma WrapEmptied(s: Slots, k: nat)
    requires k < SLOTS
    ensures WrapSlots(s)[k] == WrapList(s[k]) && WrapSlots(s)[k := []] == WrapSlots(s[k := []])
  {
    assert WrapList([]) == [];
  }

  lemma WrapCascade(s: Slots, l: Level, c: nat)
    ensures Cascade(WrapSlots(s), l, c) == WrapSlots(Cascade(s, l, c))
  {
    var k := SlotAt(l, c);
    hide WrapSlots, WrapList, ReAdd, SlotAt;
    WrapEmptied(s, k);
    WrapReAdd(s[k := []], s[k], c);
  }

  lemma {:induction false} WrapCascades(s: Slots, l: Level, c: nat)
    requires l >= 2
    ensures CascadesFrom(WrapSlots(s), l, c) == WrapSlots(CascadesFrom(s, l, c))
    decreases 5 - l
  {
    hide Cascade, WrapSlots;
    WrapCascade(s, l, c);
    if l < 5 && SlotAt(l, c) == Base(l) { WrapCascades(Cascade(s, l, c), l + 1, c); }
  }

  lemma WrapStep(s: Slots, c: nat)
    ensures Step(WrapSlots(s), c) == (WrapSlots(Step(s, c).0), WrapList(Step(s, c).1))
  {
    if c % 256 == 0 && c > 0 { WrapCascades(s, 2, c); }
    hide CascadesFrom, WrapSlots, WrapList;
    WrapEmptied(Cascades(s, c), c % 256);
  }

  lemma {:induction false} WrapTicks(s: Slots, c: nat, until: nat)
    ensures Ticks(WrapSlots(s), c, until) == (WrapSlots(Ticks(s, c, until).0), WrapList(Ticks(s, c, until).1))
    decreases until - c
  {
    hide Step, Ticks, WrapSlots;
    if c < until {
      WrapStep(s, c);
      TicksUnfold(s, c, until);
      TicksUnfold(WrapSlots(s), c, until);
      WrapTicks(Step(s, c).0, c + 1, until);
      var a, b := Step(s, c).1, Ticks(Step(s, c).0, c + 1, until).1;
      assert WrapList(a + b) == WrapList(a) + WrapList(b);
    } else {
      TicksDone(s, c, until);
      TicksDone(WrapSlots(s), c, until);
      assert WrapList([]) == [];
    }
  }

  /** Timers with 64-bit expiries are left as they are. */
  lemma WrapIdle(s: Slots)
    requires forall k, i :: 0 <= k < SLOTS && 0 <= i < |s[k]| ==> s[k][i].expires < TWO64
    ensures WrapSlots(s) == s
  {
    forall k | 0 <= k < SLOTS ensures WrapList(s[k]) == s[k] {}
  }

  // --- What becomes of an overdue timer ------------------------------------------------------

  /** The same timer with an expiry 2^64 ticks later. */
  function Shifted(key: Key): Key { key.(expires := key.expires + TWO64) }

  lemma ActsAsShifted(w: Wheel, key: Key)
    requires Good(w) && key.expires < TWO64
    ensures AddTo(w, key).slots == WrapSlots(AddTo(w, Shifted(key)).slots)
  {
    forall k, i | 0 <= k < SLOTS && 0 <= i < |w.slots[k]|
      ensures w.slots[k][i].expires < TWO64
    {
      InSlot(w.slots, k, i);
    }
    WrapIdle(w.slots);
    var t := Timer(key.handle, key.expires + TWO64, w.tick, 0);
    assert Wrap(t) == Timer(key.handle, key.expires, w.tick, 0);
    WrapInsert(w.slots, t, w.tick);
  }

  lemma StepConserves(s: Slots, c: nat)
    ensures Pending(s) == Pending(Step(s, c).0) + Keys(Step(s, c).1)
  {
    if c % 256 == 0 && c > 0 { CascadesKeys(s, 2, c); }
    hide Pending, Keys, CascadesFrom;
    DrainKeys(Cascades(s, c), c % 256);
  }

  /** No tick loses or duplicates a timer, wherever the timers are. */
  lemma {:induction false} TicksConserve(s: Slots, c: nat, until: nat)
    ensures Pending(s) == Pending(Ticks(s, c, until).0) + Keys(Ticks(s, c, until).1)
    decreases until - c
  {
    hide Pending, Keys, Step, Ticks;
    if c < until {
      StepConserves(s, c);
      TicksUnfold(s, c, until);
      TicksConserve(Step(s, c).0, c + 1, until);
      KeysAppend(Step(s, c).1, Ticks(Step(s, c).0, c + 1, until).1);
    } else {
      TicksDone(s, c, until);
      NoKeys();
    }
  }

  lemma NoKeys()
    ensures Keys([]) == multiset{}
  {
  }

  /** The wheel with the shifted timer instead: an ordinary good start for `tick`. */
  lemma ShiftedTicks(w: Wheel, key: Key, until: nat)
    requires Good(w) && key.expires < w.tick && until < TWO64
    ensures var v := AddTo(w, Shifted(key)).slots;
            && Pending(v) == Pending(w.slots) + multiset{Shifted(key)}
            && TickSpec(v, w.tick, until, Ticks(v, w.tick, until).0, Ticks(v, w.tick, until).1)
  {
    hide Pending, Ticks, TickSpec, Keys;
    var t := Timer(key.handle, key.expires + TWO64, w.tick, 0);
    InsertKeepsInv(w.slots, t, w.tick);
    InsertKeys(w.slots, t, w.tick);
    TicksRefine(AddTo(w, Shifted(key)).slots, w.tick, until);
  }

  /** An overdue timer is never fired while the clock fits 64 bits; the others are fired exactly as
      they would be without it. */
  lemma OverdueNeverFires(w: Wheel, key: Key, until: nat)
    requires Good(w) && key.expires < w.tick && until < TWO64
    ensures var s := AddTo(w, key).slots;
            var (s', fired) := Ticks(s, w.tick, until);
            && Pending(w.slots) + multiset{key} == Pending(s') + Keys(fired)
            && key in Pending(s')
            && ExpireWithin(fired, w.tick, until) && Ordered(fired)
            && forall other :: other in Pending(s') ==> other == key || until <= other.expires
  {
    hide Pending, Keys, Ticks, Inv, ExpireWithin, Ordered, WrapSlots;
    var v := AddTo(w, Shifted(key)).slots;
    var (v', fired) := Ticks(v, w.tick, until);
    ShiftedTicks(w, key, until);
    SameFired(w, key, until, v', fired);
    NotFired(fired, key, w.tick, until);
    var s' := WrapSlots(v');
    assert key in Pending(s') by { assert key in Pending(s') + Keys(fired); }
    forall other | other in Pending(WrapSlots(v'))
      ensures other == key || until <= other.expires
    {
      StillThere(w, key, until, v', fired, other);
    }
  }

  lemma SameFired(w: Wheel, key: Key, until: nat, v': Slots, fired: seq<Timer>)
    requires Good(w) && key.expires < TWO64 && until < TWO64 && ExpireWithin(fired, w.tick, until)
    requires Ticks(AddTo(w, Shifted(key)).slots, w.tick, until) == (v', fired)
    ensures Ticks(AddTo(w, key).slots, w.tick, until) == (WrapSlots(v'), fired)
    ensures Pending(w.slots) + multiset{key} == Pending(WrapSlots(v')) + Keys(fired)
  {
    hide Pending, Keys, Ticks, Inv, WrapSlots;
    ActsAsShifted(w, key);
    WrapTicks(AddTo(w, Shifted(key)).slots, w.tick, until);
    assert WrapList(fired) == fired;
    TicksConserve(AddTo(w, key).slots, w.tick, until);
    InsertKeys(w.slots, Timer(key.handle, key.expires, w.tick, 0), w.tick);
  }

  lemma NotFired(fired: seq<Timer>, key: Key, c: nat, until: nat)
    requires ExpireWithin(fired, c, until) && key.expires < c
    ensures key !in Keys(fired)
  {
    if key in Keys(fired) {
      var i := KeyInList(fired, key);
      assert false;
    }
  }

  /** What is pending in the wrapped wheel comes from the other one. */
  lemma WrappedKey(s: Slots, key: Key) returns (was: Key)
    requires key in Pending(WrapSlots(s))
    ensures was in Pending(s) && key == was.(expires := was.expires % TWO64)
  {
    var k, i := KeyInSlots(WrapSlots(s), key);
    InSlot(s, k, i);
    was := s[k][i].AsKey();
    hide Pending;
  }

  lemma StillThere(w: Wheel, key: Key, until: nat, v': Slots, fired: seq<Timer>, other: Key)
    requires Good(w) && until < TWO64
    requires Inv(v', if w.tick < until then until else w.tick)
    requires Pending(w.slots) + multiset{Shifted(key)} == Pending(v') + Keys(fired)
    requires key.expires < TWO64 && other in Pending(WrapSlots(v'))
    ensures other == key || until <= other.expires
  {
    hide Pending, Keys, Inv;
    var was := WrappedKey(v', other);
    InvBounds(v', if w.tick < until then until else w.tick);
    assert was in Pending(w.slots) + multiset{Shifted(key)};
  }

  /** `tick` keeps its promise for a timer just added exactly when the timer was not overdue. */
  lemma FiresIffNotOverdue(w: Wheel, key: Key, until: nat)
    requires Good(w) && key.expires < until < TWO64
    ensures var w1 := AddTo(w, key);
            var (s', fired) := Ticks(w1.slots, w1.tick, until);
            var after := Plain(Pending(s'), if w.tick < until then until else w.tick);
            PlainStep(Abs(w1), Ticked(until, KeySeq(fired)), after) <==> w.tick <= key.expires
  {
    hide Pending, Keys, Ticks, Inv, KeySeq, InOrder;
    if w.tick <= key.expires {
      AddRefines(w, key);
      TickRefines(AddTo(w, key), until);
    } else {
      OverdueNeverFires(w, key, until);
    }
  }

  // --- Runs with any number of overdue additions ---------------------------------------------

  /** The timer as the wheel serves it. */
  function Served(key: Key, clock: nat): Key { if key.expires < clock then Shifted(key) else key }

  function Wrapped(key: Key): Key { key.(expires := key.expires % TWO64) }

  /** The plain model in which an overdue timer expires 2^64 ticks later. */
  ghost predicate AnyStep(p: Plain, e: Event, p': Plain) {
    match e
    case Added(key) => key.expires < TWO64 && p' == Plain(p.pending + multiset{Served(key, p.clock)}, p.clock)
    case Removed(key) =>
      exists k :: k in p.pending && Wrapped(k) == key && p' == Plain(p.pending - multiset{k}, p.clock)
    case Ticked(until, fired) =>
      until < TWO64 && PlainStep(p, e, p') && forall i :: 0 <= i < |fired| ==> p.clock <= fired[i].expires
  }

  /** The wheel `w` holds the timers of `v` with their expiries modulo 2^64. */
  ghost predicate Shadows(v: Slots, w: Wheel) {
    w.slots == WrapSlots(v) && Inv(v, w.tick) && w.tick < TWO64
  }

  lemma AnyAdd(w: Wheel, v: Slots, key: Key) returns (v': Slots)
    requires Shadows(v, w) && key.expires < TWO64
    ensures Shadows(v', AddTo(w, key))
    ensures Pending(v') == Pending(v) + multiset{Served(key, w.tick)}
  {
    hide Pending, Inv, WrapSlots, Insert;
    var t := Timer(key.handle, Served(key, w.tick).expires, w.tick, 0);
    assert Wrap(t) == Timer(key.handle, key.expires, w.tick, 0);
    v' := Insert(v, t, w.tick);
    InsertKeepsInv(v, t, w.tick);
    InsertKeys(v, t, w.tick);
    WrapInsert(v, t, w.tick);
  }

  lemma WrapRemoved(s: Slots, k: nat, i: nat)
    requires k < SLOTS && i < |s[k]|
    ensures WrapSlots(s)[k] == WrapList(s[k])
    ensures WrapSlots(s)[k := Without(WrapSlots(s)[k], i)] == WrapSlots(s[k := Without(s[k], i)])
  {
    assert Without(WrapList(s[k]), i) == WrapList(Without(s[k], i));
  }

  lemma AnyRemove(w: Wheel, v: Slots, k: nat, i: nat) returns (v': Slots)
    requires Shadows(v, w) && Applicable(w, Remove(k, i))
    ensures var (w', e) := Do(w, Remove(k, i));
            Shadows(v', w') && AnyStep(Plain(Pending(v), w.tick), e, Plain(Pending(v'), w.tick))
  {
    assert |v[k]| == |w.slots[k]|;
    hide Pending, Inv, WrapSlots, Without;
    WrapRemoved(v, k, i);
    RemoveKeepsInv(v, k, i, w.tick);
    RemoveKeys(v, k, i);
    v' := v[k := Without(v[k], i)];
    var was := v[k][i].AsKey();
    assert Wrapped(was) == w.slots[k][i].AsKey();
    assert was in Pending(v) by { assert was in Pending(v') + multiset{was}; }
    assert Pending(v') == Pending(v) - multiset{was};
  }

  lemma AnyTick(w: Wheel, v: Slots, until: nat) returns (v': Slots)
    requires Shadows(v, w) && until < TWO64
    ensures var (w', e) := Do(w, Tick(until));
            Shadows(v', w') && AnyStep(Plain(Pending(v), w.tick), e, Plain(Pending(v'), w'.tick))
  {
    hide Pending, Inv, WrapSlots, Ticks, ReaddsUntil, InOrder, PlainStep;
    TicksArePlain(v, w.tick, until);
    WrapTicks(v, w.tick, until);
    v' := Ticks(v, w.tick, until).0;
    FiredAsTheyAre(v, w.tick, until);
  }

  lemma FiredAsTheyAre(v: Slots, c: nat, until: nat)
    requires Inv(v, c) && until < TWO64
    ensures WrapList(Ticks(v, c, until).1) == Ticks(v, c, until).1
  {
    hide Inv, Ticks, Pending, Keys, Ordered, WithinBudget;
    TicksRefine(v, c, until);
  }

  lemma AnyDo(w: Wheel, v: Slots, op: Op) returns (v': Slots)
    requires Shadows(v, w) && Applicable(w, op)
    ensures var (w', e) := Do(w, op);
            Shadows(v', w') && AnyStep(Plain(Pending(v), w.tick), e, Plain(Pending(v'), w'.tick))
  {
    hide Pending, Shadows;
    match op
    case Add(key) => v' := AnyAdd(w, v, key);
    case Remove(k, i) => v' := AnyRemove(w, v, k, i);
    case Tick(until) => v' := AnyTick(w, v, until);
  }

  ghost predicate AnyRun(states: seq<Plain>, es: seq<Event>) {
    && |states| == |es| + 1
    && forall i :: 0 <= i < |es| ==> AnyStep(states[i], es[i], states[i + 1])
  }

  lemma AnyRunCons(p: Plain, e: Event, states: seq<Plain>, es: seq<Event>)
    requires AnyRun(states, es) && AnyStep(p, e, states[0])
    ensures AnyRun([p] + states, [e] + es)
  {
    hide AnyStep;
    forall i | 0 <= i < |es| + 1
      ensures AnyStep(([p] + states)[i], ([e] + es)[i], ([p] + states)[i + 1])
    {
      if i > 0 { assert AnyStep(states[i - 1], es[i - 1], states[i]); }
    }
  }

  /** Every sequence of operations, with any number of overdue additions: the wheel is the plain model in
      which the overdue timers expire 2^64 ticks later, so that none of them fires and the others are
      served as if they were not there. */
  lemma {:induction false} AnyRunRefines(w: Wheel, v: Slots, ops: seq<Op>) returns (states: seq<Plain>, v': Slots)
    requires Shadows(v, w) && Applies(w, ops)
    ensures var (w', es) := Run(w, ops);
            && Shadows(v', w')
            && AnyRun(states, es)
            && states[0] == Plain(Pending(v), w.tick) && states[|es|] == Plain(Pending(v'), w'.tick)
    decreases |ops|
  {
    hide AnyStep, Shadows, Do, Pending;
    if ops == [] {
      states, v' := [Plain(Pending(v), w.tick)], v;
    } else {
      var v1 := AnyDo(w, v, ops[0]);
      var (w1, e) := Do(w, ops[0]);
      var rest;
      rest, v' := AnyRunRefines(w1, v1, ops[1..]);
      states := [Plain(Pending(v), w.tick)] + rest;
      AnyRunCons(Plain(Pending(v), w.tick), e, rest, Run(w1, ops[1..]).1);
    }
  }

  /** A new wheel is where such runs start. */
  lemma NewShadowed()
    ensures Shadows(Empty(), New()) && Pending(Empty()) == multiset{}
  {
    NewIsGood();
    WrapIdle(Empty());
  }
}
