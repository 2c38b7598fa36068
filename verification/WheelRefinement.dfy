/**
 The wheel refines a plain collection of timers: ticking to `until` fires exactly the
 timers with an expiry below `until`, each once and in order of expiry, and keeps the rest.
 */
module WheelRefinement {
  import opened WheelSlots

  // --- The abstract view: a multiset of keys --------------------------------------------

  ghost function Keys(list: seq<Timer>): multiset<Key> {
    if list == [] then multiset{} else multiset{list[0].AsKey()} + Keys(list[1..])
  }

  ghost function KeysOfAll(s: seq<seq<Timer>>): multiset<Key> {
    if s == [] then multiset{} else Keys(s[0]) + KeysOfAll(s[1..])
  }

  ghost function Pending(s: Slots): multiset<Key> { KeysOfAll(s) }

  lemma {:induction false} KeysAppend(a: seq<Timer>, b: seq<Timer>)
    ensures Keys(a + b) == Keys(a) + Keys(b)
  {
    if a == [] {
      assert a + b == b;
    } else {
      assert (a + b)[1..] == a[1..] + b;
      KeysAppend(a[1..], b);
    }
  }

  lemma SumShift(p: multiset<Key>, a: multiset<Key>, x: multiset<Key>, b: multiset<Key>, y: multiset<Key>)
    requires a + x == b + y
    ensures (p + a) + x == (p + b) + y
  {
    assert (p + a) + x == p + (a + x);
    assert (p + b) + y == p + (b + y);
  }

  lemma SumCancel(a: multiset<Key>, b: multiset<Key>, x: multiset<Key>, y: multiset<Key>)
    requires a + x == b + (y + x)
    ensures a == b + y
  {
    forall key ensures a[key] == (b + y)[key] {
      assert (a + x)[key] == (b + (y + x))[key];
    }
  }

  /** Changing one slot changes the pending timers by exactly that slot's content. */
  lemma {:induction false} KeysUpdate(s: seq<seq<Timer>>, k: nat, list: seq<Timer>)
    requires k < |s|
    ensures KeysOfAll(s[k := list]) + Keys(s[k]) == KeysOfAll(s) + Keys(list)
  {
    hide Keys;
    var s' := s[k := list];
    if k == 0 {
      assert s'[1..] == s[1..];
    } else {
      assert s'[1..] == s[1..][k - 1 := list];
      KeysUpdate(s[1..], k - 1, list);
      SumShift(Keys(s[0]), KeysOfAll(s'[1..]), Keys(s[k]), KeysOfAll(s[1..]), Keys(list));
    }
  }

  lemma {:induction false} KeyInList(list: seq<Timer>, key: Key) returns (i: nat)
    requires key in Keys(list)
    ensures i < |list| && list[i].AsKey() == key
  {
    if list[0].AsKey() == key {
      i := 0;
    } else {
      i := KeyInList(list[1..], key);
      i := i + 1;
    }
  }

  lemma {:induction false} KeyInSlots(s: seq<seq<Timer>>, key: Key) returns (k: nat, i: nat)
    requires key in KeysOfAll(s)
    ensures k < |s| && i < |s[k]| && s[k][i].AsKey() == key
  {
    if key in Keys(s[0]) {
      k := 0;
      i := KeyInList(s[0], key);
    } else {
      k, i := KeyInSlots(s[1..], key);
      k := k + 1;
    }
  }

  lemma {:induction false} ListInKeys(list: seq<Timer>, i: nat)
    requires i < |list|
    ensures list[i].AsKey() in Keys(list)
  {
    if i > 0 { ListInKeys(list[1..], i - 1); }
  }

  lemma {:induction false} KeysIncluded(s: seq<seq<Timer>>, k: nat)
    requires k < |s|
    ensures Keys(s[k]) <= KeysOfAll(s)
  {
    if k > 0 { KeysIncluded(s[1..], k - 1); }
  }

  lemma InSlot(s: Slots, k: nat, i: nat)
    requires k < SLOTS && i < |s[k]|
    ensures s[k][i].AsKey() in Pending(s)
  {
    ListInKeys(s[k], i);
    KeysIncluded(s, k);
  }

  lemma InsertKeys(s: Slots, t: Timer, c: nat)
    ensures Pending(Insert(s, t, c)) == Pending(s) + multiset{t.AsKey()}
  {
    var k := SlotFor(t.expires, c);
    KeysUpdate(s, k, [t] + s[k]);
    assert ([t] + s[k])[1..] == s[k];
    SumCancel(Pending(Insert(s, t, c)), Pending(s), Keys(s[k]), multiset{t.AsKey()});
  }

  lemma {:induction false} ReAddKeys(s: Slots, list: seq<Timer>, c: nat)
    ensures Pending(ReAdd(s, list, c)) == Pending(s) + Keys(list)
    decreases |list|
  {
    if list != [] {
      InsertKeys(s, list[0].Moved(), c);
      ReAddKeys(Insert(s, list[0].Moved(), c), list[1..], c);
    }
  }

  /** A cascade neither loses nor duplicates a timer. */
  lemma CascadeKeys(s: Slots, l: Level, c: nat)
    ensures Pending(Cascade(s, l, c)) == Pending(s)
  {
    var k := SlotAt(l, c);
    KeysUpdate(s, k, []);
    ReAddKeys(s[k := []], s[k], c);
  }

  lemma {:induction false} CascadesKeys(s: Slots, l: Level, c: nat)
    requires l >= 2
    ensures Pending(CascadesFrom(s, l, c)) == Pending(s)
    decreases 5 - l
  {
    CascadeKeys(s, l, c);
    if l < 5 && SlotAt(l, c) == Base(l) {
      CascadesKeys(Cascade(s, l, c), l + 1, c);
    }
  }

  // --- Placement ------------------------------------------------------------------------

  /** `add_timer` keeps the invariant exactly for timers that are not already overdue. */
  lemma InsertKeepsInv(s: Slots, t: Timer, c: nat)
    requires Inv(s, c) && t.expires < c + TWO64 && t.moves == 0 && t.added == c
    ensures Inv(Insert(s, t, c), c) <==> c <= t.expires
  {
    var k := SlotFor(t.expires, c);
    var s' := Insert(s, t, c);
    if c <= t.expires {
      FreshPlacement(t.expires, c);
      assert Placed(t, k, c);
      assert ListPlaced(s[k], k, c);
      assert ListPlaced([t] + s[k], k, c);
    } else {
      assert s'[k][0] == t;
      assert !Placed(t, k, c);
      assert !ListPlaced(s'[k], k, c);
    }
  }

  /** Where a cascade at tick `c` puts a timer: strictly lower, except that a timer of the top
      level goes back into the slot being drained exactly when at least 2^32 ticks remain.  Below the
      top level it is never a slot that this tick's cascades drain. */
  lemma MovedPlaced(t: Timer, l: Level, c: nat)
    requires l > 1 && c > 0 && c % Gran(l) == 0 && Placed(t, SlotAt(l, c), c)
    ensures c <= t.expires
    ensures var k := SlotFor(t.expires, c);
            && Placed(t.Moved(), k, if LevelOf(k) == 1 then c else c + 1)
            && (LevelOf(k) < l || (l == 5 && k == SlotAt(5, c)))
            && (LevelOf(k) == 5 <==> c + REVOLUTION <= t.expires)
            && (1 < LevelOf(k) < 5 ==> k != SlotAt(LevelOf(k), c))
  {
    var e := t.expires;
    FreshPlacement(e, c);
    var l' := LevelFor(e - c);
    if l < 5 {
      VisitIsDue(l, e, c);
      assert e - c < Gran(l);
      assert l' < l;
    } else {
      var m := TopVisit(e, c);
      if m == 0 {
        assert l' < 5;
      } else {
        assert l' == 5;
        TopRank(e, c, m);
      }
    }
    if 1 < l' < 5 {
      AlignedBelow(c, l, l');
      DifferentSlot(l', e, c);
    }
  }

  lemma DifferentSlot(l: Level, e: nat, c: nat)
    requires l < 5 && c % Gran(l) == 0 && c < Due(l, e) < c + Size(l) * Gran(l)
    ensures SlotAt(l, e) != SlotAt(l, c)
  {
    if SlotAt(l, e) == SlotAt(l, c) { VisitIsDue(l, e, c); }
  }

  lemma TopRank(e: nat, c: nat, m: nat)
    requires m > 0 && Due(5, e) == c + m * REVOLUTION
    ensures c + 1 <= Due(5, e) && Rank(5, e, c + 1) + 1 == Rank(5, e, c)
  {
  }

  lemma {:induction false} ReAddPlaced(s: Slots, list: seq<Timer>, l: Level, c: nat)
    requires l > 1 && c > 0 && c % Gran(l) == 0
    requires Mid(s, c, l) && ListPlaced(list, SlotAt(l, c), c)
    ensures Mid(ReAdd(s, list, c), c, l)
    decreases |list|
  {
    if list != [] {
      var t := list[0];
      assert Placed(t, SlotAt(l, c), c);
      MovedPlaced(t, l, c);
      var k := SlotFor(t.expires, c);
      assert ListPlaced(s[k], k, Horizon(k, c, l));
      assert ListPlaced([t.Moved()] + s[k], k, Horizon(k, c, l));
      ReAddPlaced(Insert(s, t.Moved(), c), list[1..], l, c);
    }
  }

  lemma LaterPlaced(t: Timer, k: nat, c: nat)
    requires k < SLOTS && Placed(t, k, c) && c < Due(LevelOf(k), t.expires)
    ensures Placed(t, k, c + 1)
  {
  }

  /** A level whose turn has not come at tick `c` is not touched by it. */
  lemma SkipLevels(s: Slots, c: nat, d: Level)
    requires Mid(s, c, d) && d < 5 && (c % Gran(d + 1) != 0 || c == 0)
    ensures Mid(s, c, 5)
  {
    forall k | 0 <= k < SLOTS
      ensures ListPlaced(s[k], k, Horizon(k, c, 5))
    {
      assert ListPlaced(s[k], k, Horizon(k, c, d));
      if LevelOf(k) > d && LevelOf(k) > 1 {
        forall i | 0 <= i < |s[k]|
          ensures Placed(s[k][i], k, c + 1)
        {
          NotDue(LevelOf(k), s[k][i].expires, c, d);
          LaterPlaced(s[k][i], k, c);
        }
      }
    }
  }

  lemma NotDue(l: Level, e: nat, c: nat, d: Level)
    requires d < l && (c % Gran(d + 1) != 0 || c == 0) && 0 < Due(l, e) && c <= Due(l, e)
    ensures c < Due(l, e)
  {
    DueAligned(l, e);
    AlignedBelow(Due(l, e), l, d + 1);
  }

  lemma DueAligned(l: Level, e: nat)
    ensures Due(l, e) % Gran(l) == 0
  {
    Rounded2(e);
    Rounded3(e);
    Rounded4(e);
    Rounded5(e);
  }

  lemma Rounded2(e: nat)
    ensures (e - e % 0x100) % 0x100 == 0
  {}

  lemma Rounded3(e: nat)
    ensures (e - e % 0x4000) % 0x4000 == 0
  {}

  lemma Rounded4(e: nat)
    ensures (e - e % 0x10_0000) % 0x10_0000 == 0
  {}

  lemma Rounded5(e: nat)
    ensures (e - e % 0x400_0000) % 0x400_0000 == 0
  {}

  lemma {:induction false} AlignedBelow(n: nat, l: Level, m: Level)
    requires m <= l && n % Gran(l) == 0
    ensures n % Gran(m) == 0
    decreases l - m
  {
    if m < l {
      AlignedOneBelow(n, l);
      AlignedBelow(n, l - 1, m);
    }
  }

  lemma AlignedOneBelow(n: nat, l: Level)
    requires l > 1 && n % Gran(l) == 0
    ensures n % Gran(l - 1) == 0
  {
    if l == 2 {
    } else if l == 3 {
      assert n == 0x100 * (64 * (n / 0x4000));
    } else if l == 4 {
      assert n == 0x4000 * (64 * (n / 0x10_0000));
    } else {
      assert n == 0x10_0000 * (64 * (n / 0x400_0000));
    }
  }

  /** One cascade at a tick divisible by the level's granularity brings that level up to date
      and leaves the lower levels up to date. */
  lemma CascadePlaced(s: Slots, l: Level, c: nat)
    requires l > 1 && c > 0 && c % Gran(l) == 0 && Mid(s, c, l - 1)
    ensures Mid(Cascade(s, l, c), c, l)
  {
    var k0 := SlotAt(l, c);
    var s' := s[k0 := []];
    forall k | 0 <= k < SLOTS
      ensures ListPlaced(s'[k], k, Horizon(k, c, l))
    {
      assert ListPlaced(s[k], k, Horizon(k, c, l - 1));
      if LevelOf(k) == l && k != k0 {
        forall i | 0 <= i < |s[k]|
          ensures Placed(s[k][i], k, c + 1)
        {
          assert Placed(s[k][i], k, c);
          OtherSlot(l, s[k][i].expires, c);
          LaterPlaced(s[k][i], k, c);
        }
      }
    }
    assert ListPlaced(s[k0], k0, Horizon(k0, c, l - 1));
    ReAddPlaced(s', s[k0], l, c);
  }

  lemma OtherSlot(l: Level, e: nat, c: nat)
    requires SlotAt(l, e) != SlotAt(l, c) && c <= Due(l, e)
    ensures c < Due(l, e)
  {
    assert Due(l, e) / Gran(l) == e / Gran(l);
  }

  /** Index 0 of a level is exactly what makes the next level's turn come. */
  lemma NextTurn(l: Level, c: nat)
    requires 2 <= l < 5 && c % Gran(l) == 0
    ensures SlotAt(l, c) == Base(l) <==> c % Gran(l + 1) == 0
  {
    if l == 2 { NextTurn2(c); } else if l == 3 { NextTurn3(c); } else { NextTurn4(c); }
  }

  lemma NextTurn2(c: nat)
    requires c % 0x100 == 0
    ensures (c / 0x100) % 64 == 0 <==> c % 0x4000 == 0
  {
    var j := c / 0x100;
    assert c == 0x100 * j && c == 0x4000 * (j / 64) + 0x100 * (j % 64);
  }

  lemma NextTurn3(c: nat)
    requires c % 0x4000 == 0
    ensures (c / 0x4000) % 64 == 0 <==> c % 0x10_0000 == 0
  {
    var j := c / 0x4000;
    assert c == 0x4000 * j && c == 0x10_0000 * (j / 64) + 0x4000 * (j % 64);
  }

  lemma NextTurn4(c: nat)
    requires c % 0x10_0000 == 0
    ensures (c / 0x10_0000) % 64 == 0 <==> c % 0x400_0000 == 0
  {
    var j := c / 0x10_0000;
    assert c == 0x10_0000 * j && c == 0x400_0000 * (j / 64) + 0x10_0000 * (j % 64);
  }

  lemma {:induction false} CascadesPlaced(s: Slots, l: Level, c: nat)
    requires l >= 2 && c > 0 && c % Gran(l) == 0 && Mid(s, c, l - 1)
    ensures Mid(CascadesFrom(s, l, c), c, 5)
    decreases 5 - l
  {
    CascadePlaced(s, l, c);
    if l < 5 {
      NextTurn(l, c);
      if SlotAt(l, c) == Base(l) {
        CascadesPlaced(Cascade(s, l, c), l + 1, c);
      } else {
        SkipLevels(Cascade(s, l, c), c, l);
      }
    }
  }

  /** The levels brought up to date at the head of tick `c`, and nothing lost. */
  lemma HeadOfTick(s: Slots, c: nat)
    requires Inv(s, c)
    ensures Mid(Cascades(s, c), c, 5) && Pending(Cascades(s, c)) == Pending(s)
  {
    assert Mid(s, c, 1) by {
      forall k | 0 <= k < SLOTS ensures ListPlaced(s[k], k, Horizon(k, c, 1)) {}
    }
    if c % 256 == 0 && c > 0 {
      CascadesPlaced(s, 2, c);
      CascadesKeys(s, 2, c);
    } else {
      SkipLevels(s, c, 1);
    }
  }

  // --- One tick and many ----------------------------------------------------------------

  ghost predicate AllExpireAt(list: seq<Timer>, c: nat) {
    forall i :: 0 <= i < |list| ==> list[i].expires == c
  }

  ghost predicate WithinBudget(list: seq<Timer>) {
    forall i :: 0 <= i < |list| ==>
      list[i].added <= list[i].expires && list[i].moves <= MoveBudget(list[i].expires, list[i].added)
  }

  /** Draining slot c % 256 takes out exactly the timers that expire at `c`. */
  lemma DrainPlaced(m: Slots, c: nat)
    requires Mid(m, c, 5)
    ensures Inv(m[c % 256 := []], c + 1)
    ensures AllExpireAt(m[c % 256], c) && WithinBudget(m[c % 256])
  {
    var s' := m[c % 256 := []];
    forall k | 0 <= k < SLOTS
      ensures ListPlaced(s'[k], k, c + 1)
    {
      assert ListPlaced(m[k], k, Horizon(k, c, 5));
      if LevelOf(k) == 1 && k != c % 256 {
        forall i | 0 <= i < |m[k]|
          ensures Placed(m[k][i], k, c + 1)
        {
          assert Placed(m[k][i], k, c);
          LaterPlaced(m[k][i], k, c);
        }
      }
    }
    assert ListPlaced(m[c % 256], c % 256, Horizon(c % 256, c, 5));
    forall i | 0 <= i < |m[c % 256]|
      ensures m[c % 256][i].expires == c
    {
      assert Placed(m[c % 256][i], c % 256, c);
      VisitIsDue(1, m[c % 256][i].expires, c);
    }
  }

  /** One tick fires exactly the timers of that tick and restores the invariant for the next. */
  lemma StepRefines(s: Slots, c: nat)
    requires Inv(s, c)
    ensures var (s', fired) := Step(s, c);
            && Inv(s', c + 1)
            && AllExpireAt(fired, c)
            && WithinBudget(fired)
            && Pending(s) == Pending(s') + Keys(fired)
  {
    hide Inv, Mid, Step, Cascades, Pending, Keys, AllExpireAt, WithinBudget;
    HeadOfTick(s, c);
    var m := Cascades(s, c);
    DrainPlaced(m, c);
    StepIs(s, c);
    DrainKeys(m, c % 256);
  }

  lemma StepIs(s: Slots, c: nat)
    ensures Step(s, c) == (Cascades(s, c)[c % 256 := []], Cascades(s, c)[c % 256])
  {
    hide Cascades;
  }

  lemma DrainKeys(m: Slots, k: nat)
    requires k < SLOTS
    ensures Pending(m) == Pending(m[k := []]) + Keys(m[k])
  {
    KeysUpdate(m, k, []);
  }

  ghost predicate Ordered(list: seq<Timer>) {
    forall i, j :: 0 <= i < j < |list| ==> list[i].expires <= list[j].expires
  }

  ghost predicate ExpireWithin(list: seq<Timer>, lo: nat, hi: nat) {
    forall i :: 0 <= i < |list| ==> lo <= list[i].expires < hi
  }

  /** What `tick(until)` promises: conservation, order, exactly the due timers, each moved
      within its budget. */
  ghost predicate TickSpec(s: Slots, c: nat, until: nat, s': Slots, fired: seq<Timer>) {
    && Inv(s', if c < until then until else c)
    && Pending(s) == Pending(s') + Keys(fired)
    && ExpireWithin(fired, c, until)
    && Ordered(fired)
    && WithinBudget(fired)
  }

  lemma AppendInOrder(fired: seq<Timer>, later: seq<Timer>, c: nat, until: nat)
    requires c < until && AllExpireAt(fired, c) && ExpireWithin(later, c + 1, until)
    requires Ordered(later) && WithinBudget(fired) && WithinBudget(later)
    ensures ExpireWithin(fired + later, c, until) && Ordered(fired + later) && WithinBudget(fired + later)
  {
    var all := fired + later;
    forall i, j | 0 <= i < j < |all|
      ensures all[i].expires <= all[j].expires
    {
      if i < |fired| { assert all[i].expires == c; }
    }
  }

  lemma FirstThenRest(s: Slots, c: nat, until: nat, s1: Slots, fired: seq<Timer>, s2: Slots, later: seq<Timer>)
    requires c < until && AllExpireAt(fired, c) && WithinBudget(fired)
    requires Pending(s) == Pending(s1) + Keys(fired)
    requires TickSpec(s1, c + 1, until, s2, later)
    ensures TickSpec(s, c, until, s2, fired + later)
  {
    KeysAppend(fired, later);
    AppendInOrder(fired, later, c, until);
    assert Pending(s) == (Pending(s2) + Keys(later)) + Keys(fired);
    assert Pending(s) == Pending(s2) + Keys(fired + later);
  }

  lemma {:induction false} TicksRefine(s: Slots, c: nat, until: nat)
    requires Inv(s, c)
    ensures TickSpec(s, c, until, Ticks(s, c, until).0, Ticks(s, c, until).1)
    decreases until - c
  {
    hide Inv, Step, Pending, Keys, Ticks, TickSpec;
    if c < until {
      StepRefines(s, c);
      TicksUnfold(s, c, until);
      var (s1, fired) := Step(s, c);
      TicksRefine(s1, c + 1, until);
      var (s2, later) := Ticks(s1, c + 1, until);
      FirstThenRest(s, c, until, s1, fired, s2, later);
    } else {
      TicksDone(s, c, until);
      NothingDue(s, c, until);
    }
  }

  lemma NothingDue(s: Slots, c: nat, until: nat)
    requires Inv(s, c) && until <= c
    ensures TickSpec(s, c, until, s, [])
  {
  }

  /** What the invariant says about the pending keys: none is overdue, and every timer has been
      moved at most 4 + (expires - added) / 2^32 times. */
  lemma InvBounds(s: Slots, c: nat)
    requires Inv(s, c)
    ensures forall key :: key in Pending(s) ==> c <= key.expires
    ensures forall k, i :: 0 <= k < SLOTS && 0 <= i < |s[k]| ==>
              s[k][i].added <= s[k][i].expires
              && s[k][i].moves <= MoveBudget(s[k][i].expires, s[k][i].added)
  {
    forall key | key in Pending(s)
      ensures c <= key.expires
    {
      var k, i := KeyInSlots(s, key);
      assert ListPlaced(s[k], k, c);
      assert Placed(s[k][i], k, c);
    }
    forall k, i | 0 <= k < SLOTS && 0 <= i < |s[k]|
      ensures s[k][i].added <= s[k][i].expires
      ensures s[k][i].moves <= MoveBudget(s[k][i].expires, s[k][i].added)
    {
      assert ListPlaced(s[k], k, c);
      assert Placed(s[k][i], k, c);
    }
  }
}
