/**
 Whole runs of the wheel: every sequence of additions, removals and ticks behaves as the
 same sequence on a plain multiset of timers with a clock.
 */
module WheelRuns {
  import opened Basics
  import opened WheelSlots
  import opened WheelRefinement

  datatype Wheel = Wheel(slots: Slots, tick: nat, active: int)

  datatype Op =
    | Add(key: Key)
    | Remove(slot: nat, pos: nat)
    | Tick(until: nat)

  /** What a caller sees of an operation. */
  datatype Event =
    | Added(key: Key)
    | Removed(key: Key)
    | Ticked(until: nat, fired: seq<Key>)

  function New(): Wheel { Wheel(Empty(), 0, 0) }

  /** Only linked nodes are removed, and times are 64-bit. */
  predicate Applicable(w: Wheel, op: Op) {
    match op
    case Add(key) => key.expires < TWO64
    case Remove(slot, pos) => slot < SLOTS && pos < |w.slots[slot]|
    case Tick(until) => until < TWO64
  }

  /** What the callers of the runtime guarantee besides: no timer is added overdue. */
  predicate Enabled(w: Wheel, op: Op) {
    Applicable(w, op) && (op.Add? ==> w.tick <= op.key.expires)
  }

  function KeySeq(list: seq<Timer>): seq<Key> {
    seq(|list|, i requires 0 <= i < |list| => list[i].AsKey())
  }

  /** `add_timer` with any expiry, overdue or not. */
  function AddTo(w: Wheel, key: Key): Wheel {
    Wheel(Insert(w.slots, Timer(key.handle, key.expires, w.tick, 0), w.tick), w.tick, w.active + 1)
  }

  function Do(w: Wheel, op: Op): (Wheel, Event)
    requires Applicable(w, op)
  {
    match op
    case Add(key) => (AddTo(w, key), Added(key))
    case Remove(k, i) =>
      (w.(slots := w.slots[k := Without(w.slots[k], i)], active := w.active - 1), Removed(w.slots[k][i].AsKey()))
    case Tick(until) =>
      var (s, fired) := Ticks(w.slots, w.tick, until);
      (Wheel(s, if w.tick < until then until else w.tick, w.active + ReaddsUntil(w.slots, w.tick, until)),
       Ticked(until, KeySeq(fired)))
  }

  // --- The plain model ------------------------------------------------------------------

  datatype Plain = Plain(pending: multiset<Key>, clock: nat)

  ghost predicate InOrder(keys: seq<Key>) {
    forall i, j :: 0 <= i < j < |keys| ==> keys[i].expires <= keys[j].expires
  }

  /** A tick to `until` fires, in order of expiry, exactly what expires before `until`. */
  ghost predicate PlainStep(p: Plain, e: Event, p': Plain) {
    match e
    case Added(key) => p' == Plain(p.pending + multiset{key}, p.clock)
    case Removed(key) => key in p.pending && p' == Plain(p.pending - multiset{key}, p.clock)
    case Ticked(until, fired) =>
      && p'.clock == (if p.clock < until then until else p.clock)
      && p.pending == p'.pending + multiset(fired)
      && InOrder(fired)
      && (forall i :: 0 <= i < |fired| ==> fired[i].expires < until)
      && (forall key :: key in p'.pending ==> until <= key.expires)
  }

  ghost function Abs(w: Wheel): Plain { Plain(Pending(w.slots), w.tick) }

  ghost predicate Good(w: Wheel) {
    && Inv(w.slots, w.tick) && w.tick < TWO64 && |Pending(w.slots)| <= w.active
    && (forall key :: key in Pending(w.slots) ==> key.expires < TWO64)
  }

  // --- Lemmas ---------------------------------------------------------------------------

  lemma {:induction false} KeySeqKeys(list: seq<Timer>)
    ensures multiset(KeySeq(list)) == Keys(list)
  {
    if list != [] {
      assert KeySeq(list) == [list[0].AsKey()] + KeySeq(list[1..]);
      KeySeqKeys(list[1..]);
    }
  }

  lemma {:induction false} KeysDrop(list: seq<Timer>, i: nat)
    requires i < |list|
    ensures Keys(list) == Keys(Without(list, i)) + multiset{list[i].AsKey()}
  {
    if i == 0 {
      assert Without(list, 0) == list[1..];
    } else {
      assert Without(list, i)[1..] == Without(list[1..], i - 1);
      KeysDrop(list[1..], i - 1);
    }
  }

  lemma NewIsGood()
    ensures Good(New()) && Abs(New()) == Plain(multiset{}, 0)
  {
    EmptyKeys(Empty());
  }

  lemma {:induction false} EmptyKeys(s: seq<seq<Timer>>)
    requires forall k :: 0 <= k < |s| ==> s[k] == []
    ensures KeysOfAll(s) == multiset{}
  {
    if s != [] { EmptyKeys(s[1..]); }
  }

  lemma AddRefines(w: Wheel, key: Key)
    requires Good(w) && Enabled(w, Add(key))
    ensures var (w', e) := Do(w, Add(key)); Good(w') && PlainStep(Abs(w), e, Abs(w'))
  {
    var t := Timer(key.handle, key.expires, w.tick, 0);
    InsertKeepsInv(w.slots, t, w.tick);
    InsertKeys(w.slots, t, w.tick);
  }

  lemma RemoveKeepsInv(s: Slots, k: nat, i: nat, c: nat)
    requires Inv(s, c) && k < SLOTS && i < |s[k]|
    ensures Inv(s[k := Without(s[k], i)], c)
  {
    var s' := s[k := Without(s[k], i)];
    forall j | 0 <= j < SLOTS
      ensures ListPlaced(s'[j], j, c)
    {
      assert ListPlaced(s[j], j, c);
    }
  }

  lemma RemoveKeys(s: Slots, k: nat, i: nat)
    requires k < SLOTS && i < |s[k]|
    ensures Pending(s) == Pending(s[k := Without(s[k], i)]) + multiset{s[k][i].AsKey()}
  {
    hide Keys;
    var list := Without(s[k], i);
    KeysUpdate(s, k, list);
    KeysDrop(s[k], i);
    SumCancel(Pending(s), Pending(s[k := list]), Keys(list), multiset{s[k][i].AsKey()});
  }

  lemma RemoveRefines(w: Wheel, k: nat, i: nat)
    requires Good(w) && Enabled(w, Remove(k, i))
    ensures var (w', e) := Do(w, Remove(k, i)); Good(w') && PlainStep(Abs(w), e, Abs(w'))
  {
    hide Inv, Pending, Without;
    RemoveKeepsInv(w.slots, k, i, w.tick);
    RemoveKeys(w.slots, k, i);
  }

  lemma FiredKeys(fired: seq<Timer>, lo: nat, hi: nat)
    requires ExpireWithin(fired, lo, hi) && Ordered(fired)
    ensures InOrder(KeySeq(fired)) && multiset(KeySeq(fired)) == Keys(fired)
    ensures forall i :: 0 <= i < |KeySeq(fired)| ==> KeySeq(fired)[i].expires < hi
  {
    hide Keys;
    KeySeqKeys(fired);
  }

  lemma TicksArePlain(s: Slots, c: nat, until: nat)
    requires Inv(s, c)
    ensures var (s', fired) := Ticks(s, c, until);
            var c' := if c < until then until else c;
            && Inv(s', c')
            && PlainStep(Plain(Pending(s), c), Ticked(until, KeySeq(fired)), Plain(Pending(s'), c'))
            && (forall i :: 0 <= i < |KeySeq(fired)| ==> c <= KeySeq(fired)[i].expires)
  {
    hide Inv, Pending, Ticks, Keys, InOrder, WithinBudget;
    TicksRefine(s, c, until);
    FiredKeys(Ticks(s, c, until).1, c, until);
    InvBounds(Ticks(s, c, until).0, if c < until then until else c);
    hide Ordered;
  }

  lemma TickRefines(w: Wheel, until: nat)
    requires Good(w) && Enabled(w, Tick(until))
    ensures var (w', e) := Do(w, Tick(until)); Good(w') && PlainStep(Abs(w), e, Abs(w'))
  {
    hide Inv, Pending, Ticks, KeySeq, ReaddsUntil, InOrder;
    TicksArePlain(w.slots, w.tick, until);
    var (s, fired) := Ticks(w.slots, w.tick, until);
    assert |Pending(w.slots)| == |Pending(s)| + |multiset(KeySeq(fired))|;
  }

  lemma DoRefines(w: Wheel, op: Op)
    requires Good(w) && Enabled(w, op)
    ensures var (w', e) := Do(w, op); Good(w') && PlainStep(Abs(w), e, Abs(w'))
  {
    match op
    case Add(key) => AddRefines(w, key);
    case Remove(k, i) => RemoveRefines(w, k, i);
    case Tick(until) => TickRefines(w, until);
  }

  // --- Runs -----------------------------------------------------------------------------

  /** Every operation of the list is applicable when its turn comes. */
  predicate Applies(w: Wheel, ops: seq<Op>)
    decreases |ops|
  {
    ops == [] || (Applicable(w, ops[0]) && Applies(Do(w, ops[0]).0, ops[1..]))
  }

  /** Every operation of the list is enabled when its turn comes. */
  predicate Runnable(w: Wheel, ops: seq<Op>): (b: bool)
    ensures b ==> Applies(w, ops)
    decreases |ops|
  {
    ops == [] || (Enabled(w, ops[0]) && Runnable(Do(w, ops[0]).0, ops[1..]))
  }

  function Run(w: Wheel, ops: seq<Op>): (Wheel, seq<Event>)
    requires Applies(w, ops)
    decreases |ops|
  {
    if ops == [] then (w, []) else
    var (w1, e) := Do(w, ops[0]);
    var (w2, es) := Run(w1, ops[1..]);
    (w2, [e] + es)
  }

  /** `states` is a run of the plain model that shows the events `es`. */
  ghost predicate PlainRun(states: seq<Plain>, es: seq<Event>) {
    && |states| == |es| + 1
    && forall i :: 0 <= i < |es| ==> PlainStep(states[i], es[i], states[i + 1])
  }

  lemma PlainRunCons(p: Plain, e: Event, states: seq<Plain>, es: seq<Event>)
    requires PlainRun(states, es) && PlainStep(p, e, states[0])
    ensures PlainRun([p] + states, [e] + es)
  {
    hide PlainStep;
    forall i | 0 <= i < |es| + 1
      ensures PlainStep(([p] + states)[i], ([e] + es)[i], ([p] + states)[i + 1])
    {
      if i > 0 { assert PlainStep(states[i - 1], es[i - 1], states[i]); }
    }
  }

  /** Refinement over whole runs, from any good wheel and in particular from a new one. */
  lemma {:induction false} RunRefines(w: Wheel, ops: seq<Op>) returns (states: seq<Plain>)
    requires Good(w) && Runnable(w, ops)
    ensures var (w', es) := Run(w, ops);
            && Good(w')
            && PlainRun(states, es)
            && states[0] == Abs(w) && states[|es|] == Abs(w')
    decreases |ops|
  {
    hide PlainStep, Good, Do, Abs;
    if ops == [] {
      states := [Abs(w)];
    } else {
      DoRefines(w, ops[0]);
      var (w1, e) := Do(w, ops[0]);
      var rest := RunRefines(w1, ops[1..]);
      states := [Abs(w)] + rest;
      PlainRunCons(Abs(w), e, rest, Run(w1, ops[1..]).1);
    }
  }
}
