/**
 `next_timeout`: how long the event loop may block.  It scans `tv1_` only, so its answer is
 exact only as long as the timer it finds comes no later than the next cascade.
 */
module WheelTimeout {
  import opened WheelSlots
  import opened WheelRefinement
  import opened WheelRuns

  const INFINITE := TWO64 - 1

  /** The `tv1_` slot at offset `i` from the current tick. */
  function Scan(c: nat, i: nat): (k: nat)
    ensures k < 256
  {
    (c + i) % 256
  }

  lemma ScanDistinct(c: nat, i: nat, j: nat)
    requires i < 256 && j < 256 && Scan(c, i) == Scan(c, j)
    ensures i == j
  {
  }

  /** Offset of the first nonempty `tv1_` slot seen by the scan from offset `i`, or 256. */
  function FirstBusy(s: Slots, c: nat, i: nat): nat
    requires i <= 256
    decreases 256 - i
  {
    if i == 256 || s[Scan(c, i)] != [] then i else FirstBusy(s, c, i + 1)
  }

  function Timeout(s: Slots, c: nat, active: int, now: nat): nat {
    if active == 0 then INFINITE else
    var i := FirstBusy(s, c, 0);
    if i < 256 && s[Scan(c, i)] != [] then
      var e := s[Scan(c, i)][0].expires;
      if e > now then e - now else 0
    else 50
  }

  /** Blocking for `timeout` ms at `now` runs past the expiry `e`. */
  predicate RunsPast(now: nat, timeout: nat, e: nat) { timeout > 0 && now + timeout > e }

  /** The first tick at or after `c` at which a cascade takes place. */
  function NextCascade(c: nat): nat {
    if c == 0 then 256 else (c + 255) / 256 * 256
  }

  lemma {:induction false} FirstBusyIs(s: Slots, c: nat, i: nat)
    requires i <= 256
    ensures var r := FirstBusy(s, c, i);
            && i <= r <= 256
            && (r < 256 ==> s[Scan(c, r)] != [])
            && forall j :: i <= j < r ==> s[Scan(c, j)] == []
    decreases 256 - i
  {
    if i < 256 && s[Scan(c, i)] == [] {
      FirstBusyIs(s, c, i + 1);
    }
  }

  /** A timer in a `tv1_` slot expires exactly when the scan offset says. */
  lemma FirstLevelExpiry(s: Slots, c: nat, i: nat, j: nat)
    requires Inv(s, c) && i < 256 && j < |s[Scan(c, i)]|
    ensures s[Scan(c, i)][j].expires == c + i
  {
    var k := Scan(c, i);
    var e := s[k][j].expires;
    assert ListPlaced(s[k], k, c);
    assert Placed(s[k][j], k, c);
    assert Scan(c, e - c) == e % 256;
    ScanDistinct(c, e - c, i);
  }

  /** Where a pending timer sits: in `tv1_` at its own offset, or beyond the next cascade. */
  lemma PendingPlace(s: Slots, c: nat, key: Key)
    requires Inv(s, c) && key in Pending(s)
    ensures c <= key.expires
    ensures key.expires < NextCascade(c) ==> key.expires < c + 256 && s[key.expires % 256] != []
  {
    hide KeysOfAll, Placed, NextCascade, LevelOf;
    var k, i := KeyInSlots(s, key);
    assert ListPlaced(s[k], k, c);
    if LevelOf(k) > 1 { UpperPlace(s[k][i], k, c); } else { LowerPlace(s[k][i], k, c); }
  }

  lemma LowerPlace(t: Timer, k: nat, c: nat)
    requires k < SLOTS && Placed(t, k, c) && LevelOf(k) == 1
    ensures c <= t.expires < c + 256 && k == t.expires % 256
  {
  }

  lemma UpperPlace(t: Timer, k: nat, c: nat)
    requires k < SLOTS && Placed(t, k, c) && LevelOf(k) > 1
    ensures c <= t.expires && NextCascade(c) <= t.expires
  {
    var l := LevelOf(k);
    DueAligned(l, t.expires);
    AlignedBelow(Due(l, t.expires), l, 2);
    AfterCascade(Due(l, t.expires), c);
  }

  lemma AfterCascade(d: nat, c: nat)
    requires d % 256 == 0 && c <= d && 0 < d
    ensures NextCascade(c) <= d
  {
    assert d == 256 * (d / 256);
    if c > 0 { assert (c + 255) / 256 <= d / 256; }
  }

  ghost predicate Earliest(s: Slots, e: nat) {
    && (exists key :: key in Pending(s) && key.expires == e)
    && (forall key :: key in Pending(s) ==> e <= key.expires)
  }

  /** "Infinite" means that nothing is pending, and any other answer is at most 255 ms once the
      wheel has caught up with the clock. */
  lemma TimeoutRange(w: Wheel, now: nat)
    requires Good(w) && w.tick <= now
    ensures var r := Timeout(w.slots, w.tick, w.active, now);
            && (r == 0xFFFF_FFFF_FFFF_FFFF <==> r == INFINITE) && (r == INFINITE <==> w.active == 0)
            && (r == INFINITE ==> Pending(w.slots) == multiset{})
            && (r != INFINITE ==> r <= 255)
  {
    hide Pending;
    FirstBusyIs(w.slots, w.tick, 0);
    var i := FirstBusy(w.slots, w.tick, 0);
    if i < 256 { FirstLevelExpiry(w.slots, w.tick, i, 0); }
  }

  /** The answer is the time left to the first timer of `tv1_`, or 0 if that is past; when it expires no
      later than the next cascade it is the earliest pending timer. */
  lemma TimeoutExact(s: Slots, c: nat, active: int, now: nat)
    requires Inv(s, c) && active != 0 && FirstBusy(s, c, 0) < 256
    ensures var found := c + FirstBusy(s, c, 0);
            && (now < found ==> Timeout(s, c, active, now) == found - now)
            && (found <= now ==> Timeout(s, c, active, now) == 0)
            && (found <= NextCascade(c) ==> Earliest(s, found))
            && (forall k, j :: 0 <= k < 256 && 0 <= j < |s[k]| ==> found <= s[k][j].expires)
            && exists key :: key in Pending(s) && key.expires == found
  {
    hide Inv, Pending, Keys, Scan, Earliest;
    FirstBusyIs(s, c, 0);
    var i := FirstBusy(s, c, 0);
    FirstLevelExpiry(s, c, i, 0);
    var key0 := s[Scan(c, i)][0].AsKey();
    InSlot(s, Scan(c, i), 0);
    assert key0 in Pending(s) && key0.expires == c + i;
    if c + i <= NextCascade(c) { FoundIsEarliest(s, c); }
    FoundIsFirst(s, c);
  }

  lemma FoundIsFirst(s: Slots, c: nat)
    requires Inv(s, c) && FirstBusy(s, c, 0) < 256
    ensures forall k, j :: 0 <= k < 256 && 0 <= j < |s[k]| ==> c + FirstBusy(s, c, 0) <= s[k][j].expires
  {
    hide Placed;
    FirstBusyIs(s, c, 0);
    forall k, j | 0 <= k < 256 && 0 <= j < |s[k]|
      ensures c + FirstBusy(s, c, 0) <= s[k][j].expires
    {
      assert ListPlaced(s[k], k, c);
      LowerPlace(s[k][j], k, c);
      assert Scan(c, s[k][j].expires - c) == k;
    }
  }

  lemma FoundIsEarliest(s: Slots, c: nat)
    requires Inv(s, c) && FirstBusy(s, c, 0) < 256 && c + FirstBusy(s, c, 0) <= NextCascade(c)
    ensures Earliest(s, c + FirstBusy(s, c, 0))
  {
    hide Inv, Pending;
    FirstBusyIs(s, c, 0);
    var i := FirstBusy(s, c, 0);
    FirstLevelExpiry(s, c, i, 0);
    InSlot(s, Scan(c, i), 0);
    assert s[Scan(c, i)][0].AsKey() in Pending(s);
    forall key | key in Pending(s)
      ensures c + i <= key.expires
    {
      PendingPlace(s, c, key);
      assert Scan(c, key.expires - c) == key.expires % 256;
    }
  }

  /** With `tv1_` empty the fixed answer of 50 ms cannot run past a pending timer unless the next
      cascade is less than 50 ms away. */
  lemma TimeoutBlind(s: Slots, c: nat, active: int, now: nat)
    requires Inv(s, c) && active != 0 && FirstBusy(s, c, 0) == 256
    ensures Timeout(s, c, active, now) == 50
    ensures forall key :: key in Pending(s) ==> NextCascade(c) <= key.expires
  {
    hide Inv, Pending;
    FirstBusyIs(s, c, 0);
    forall key | key in Pending(s)
      ensures NextCascade(c) <= key.expires
    {
      PendingPlace(s, c, key);
      assert Scan(c, key.expires - c) == key.expires % 256;
    }
  }

  // --- The condition is sharp -----------------------------------------------------------

  /** A cascade or drain of empty slots changes nothing. */
  lemma QuietStep(s: Slots, c: nat)
    requires s[c % 256] == []
    requires c % 256 == 0 ==> forall l: Level :: l > 1 ==> s[SlotAt(l, c)] == []
    ensures Step(s, c) == (s, [])
  {
    if c % 256 == 0 && c > 0 { QuietCascades(s, 2, c); }
    assert s[c % 256 := []] == s;
  }

  lemma {:induction false} QuietCascades(s: Slots, l: Level, c: nat)
    requires l > 1 && forall m: Level :: m > 1 ==> s[SlotAt(m, c)] == []
    ensures CascadesFrom(s, l, c) == s
    decreases 5 - l
  {
    assert s[SlotAt(l, c) := []] == s;
    if l < 5 { QuietCascades(s, l + 1, c); }
  }

  /** Only slot `k` of level 2 may hold timers. */
  ghost predicate OnlySlot(s: Slots, k: nat) {
    forall j :: 0 <= j < SLOTS && j != k ==> s[j] == []
  }

  lemma {:induction false} QuietTicks(s: Slots, c: nat, until: nat, due: nat)
    requires due % 256 == 0 && OnlySlot(s, SlotAt(2, due)) && until <= due
    requires s == Empty() || due <= c + 256
    ensures Ticks(s, c, until) == (s, [])
    decreases until - c
  {
    hide Step;
    if c < until {
      if c % 256 == 0 {
        forall l: Level | l > 1
          ensures s[SlotAt(l, c)] == []
        {
          if s != Empty() && l == 2 { OtherTurn(c, due); }
        }
      }
      QuietStep(s, c);
      QuietTicks(s, c + 1, until, due);
      TicksUnfold(s, c, until);
    } else {
      TicksDone(s, c, until);
    }
  }

  lemma OtherTurn(c: nat, due: nat)
    requires c % 256 == 0 && due % 256 == 0 && c < due <= c + 256
    ensures SlotAt(2, c) != SlotAt(2, due)
  {
    assert due == c + 256;
    assert due / 256 == c / 256 + 1;
  }

  /** Add a timer 256 ticks ahead of a cascade, catch up to `c`, and add a nearer one that still
      comes after the cascade. */
  function Overshoot(c: nat, i: nat): seq<Op>
    requires 0 < c
  {
    var due := NextCascade(c);
    [Tick(due - 256), Add(Key(1, due)), Tick(c), Add(Key(2, c + i))]
  }

  /** In every other case some run overshoots: at tick `c` the scan finds the timer at c + i
      although an earlier one, due at the next cascade, is still in `tv2_`. */
  lemma TimeoutSharp(c: nat, i: nat)
    requires i < 256 && c + i < TWO64 && NextCascade(c) < c + i
    ensures 0 < c && Runnable(New(), Overshoot(c, i))
    ensures var w := Run(New(), Overshoot(c, i)).0;
            && w.tick == c && FirstBusy(w.slots, c, 0) == i
            && !Earliest(w.slots, c + i)
            && Key(1, NextCascade(c)) in Pending(w.slots)
            && forall now: nat :: now < c + i ==>
                 Timeout(w.slots, c, w.active, now) == c + i - now
  {
    hide Do, Run, Runnable, FirstBusy, Earliest, Timeout, Pending;
    var w1, w2 := OvershootFirst(c);
    var w3, w4 := OvershootSecond(c, i, w2);
    OvershootRun(c, i, w1, w2, w3, w4);
    BothPending(w4, c, i);
  }

  lemma BothPending(w: Wheel, c: nat, i: nat)
    requires 0 < c && i < 256 && NextCascade(c) < c + i && w.active > 0
    requires var due := NextCascade(c);
             w.slots == Empty()[SlotAt(2, due) := [Timer(1, due, due - 256, 0)]][Scan(c, i) := [Timer(2, c + i, c, 0)]]
    ensures FirstBusy(w.slots, c, 0) == i && !Earliest(w.slots, c + i) && Key(1, NextCascade(c)) in Pending(w.slots)
    ensures forall now: nat :: now < c + i ==> Timeout(w.slots, c, w.active, now) == c + i - now
  {
    hide Pending, Scan;
    OnlyBusy(w.slots, c, i);
    InSlot(w.slots, SlotAt(2, NextCascade(c)), 0);
    assert Key(1, NextCascade(c)) in Pending(w.slots);
  }

  lemma InsertAlone(s: Slots, t: Timer, c: nat, k: nat)
    requires k < SLOTS && s[k] == [] && SlotFor(t.expires, c) == k
    ensures Insert(s, t, c) == s[k := [t]]
  {
    assert [t] + s[k] == [t];
  }

  /** After the first two operations the timer due at the next cascade sits in `tv2_`. */
  lemma OvershootFirst(c: nat) returns (w1: Wheel, w2: Wheel)
    requires NextCascade(c) < TWO64
    ensures var due := NextCascade(c);
            && w1 == Do(New(), Tick(due - 256)).0 && w1.tick == due - 256
            && w2 == Do(w1, Add(Key(1, due))).0
            && w2.slots == Empty()[SlotAt(2, due) := [Timer(1, due, due - 256, 0)]]
            && w2.tick == due - 256 && w2.active > 0
  {
    hide Ticks, ReaddsUntil, Insert;
    var due := NextCascade(c);
    QuietTicks(Empty(), 0, due - 256, due);
    w1 := Wheel(Empty(), due - 256, ReaddsUntil(Empty(), 0, due - 256));
    assert Do(New(), Tick(due - 256)).0 == w1;
    var t := Timer(1, due, due - 256, 0);
    assert (due - (due - 256)) % TWO64 == 256;
    InsertAlone(Empty(), t, due - 256, SlotAt(2, due));
    w2 := Do(w1, Add(Key(1, due))).0;
  }

  /** It is still there at tick `c`, when the nearer timer is added to `tv1_`. */
  lemma OvershootSecond(c: nat, i: nat, w2: Wheel) returns (w3: Wheel, w4: Wheel)
    requires 0 < c && i < 256 && c + i < TWO64 && NextCascade(c) < c + i
    requires var due := NextCascade(c);
             && w2.slots == Empty()[SlotAt(2, due) := [Timer(1, due, due - 256, 0)]]
             && w2.tick == due - 256 && w2.active > 0
    ensures w3 == Do(w2, Tick(c)).0 && w3.tick == c
    ensures w4 == Do(w3, Add(Key(2, c + i))).0 && w4.tick == c && w4.active > 0
    ensures w4.slots == w2.slots[Scan(c, i) := [Timer(2, c + i, c, 0)]]
  {
    hide Ticks, ReaddsUntil, Insert;
    var due := NextCascade(c);
    assert due % 256 == 0 && due - 256 < c <= due;
    QuietTicks(w2.slots, due - 256, c, due);
    w3 := Wheel(w2.slots, c, w2.active + ReaddsUntil(w2.slots, due - 256, c));
    assert Do(w2, Tick(c)).0 == w3;
    var t := Timer(2, c + i, c, 0);
    assert SlotFor(c + i, c) == Scan(c, i) by { assert (c + i - c) % TWO64 == i; }
    InsertAlone(w2.slots, t, c, Scan(c, i));
    w4 := Do(w3, Add(Key(2, c + i))).0;
  }

  lemma OvershootRun(c: nat, i: nat, w1: Wheel, w2: Wheel, w3: Wheel, w4: Wheel)
    requires 0 < c && c + i < TWO64 && NextCascade(c) < c + i
    requires Do(New(), Tick(NextCascade(c) - 256)).0 == w1
    requires w1.tick <= NextCascade(c) && Do(w1, Add(Key(1, NextCascade(c)))).0 == w2
    requires Do(w2, Tick(c)).0 == w3
    requires w3.tick <= c + i && Do(w3, Add(Key(2, c + i))).0 == w4
    ensures Runnable(New(), Overshoot(c, i)) && Run(New(), Overshoot(c, i)).0 == w4
  {
    hide Do;
    var ops := Overshoot(c, i);
    assert ops[1..][0] == ops[1] && ops[1..][1..] == ops[2..];
    assert ops[2..][0] == ops[2] && ops[2..][1..] == ops[3..];
    assert ops[3..][0] == ops[3] && ops[3..][1..] == [];
    assert Runnable(w4, []);
    assert Runnable(w3, ops[3..]) && Run(w3, ops[3..]).0 == w4;
    assert Runnable(w2, ops[2..]) && Run(w2, ops[2..]).0 == w4;
    assert Runnable(w1, ops[1..]) && Run(w1, ops[1..]).0 == w4;
  }

  lemma OnlyBusy(s: Slots, c: nat, i: nat)
    requires i < 256 && s[Scan(c, i)] != []
    requires forall j :: 0 <= j < 256 && j != Scan(c, i) ==> s[j] == []
    ensures FirstBusy(s, c, 0) == i
  {
    hide Scan;
    FirstBusyIs(s, c, 0);
    var r := FirstBusy(s, c, 0);
    if r < i { ScanDistinct(c, i, r); }
  }

  // --- The exact condition ------------------------------------------------------------------

  /** The answer does not run past a pending timer. */
  ghost predicate InTime(w: Wheel, now: nat) {
    forall key :: key in Pending(w.slots) ==>
      !RunsPast(now, Timeout(w.slots, w.tick, w.active, now), key.expires)
  }

  /** At tick `c` the scan stopped at offset `i`, or at 256 when `tv1_` is empty: what it found comes
      no later than the next cascade or is past, or the fixed 50 ms end by the next cascade. */
  predicate SafeAt(c: nat, i: nat, now: nat) {
    if i < 256 then c + i <= NextCascade(c) || c + i <= now else now + 50 <= NextCascade(c)
  }

  lemma SafeInTime(w: Wheel, now: nat)
    requires Good(w) && SafeAt(w.tick, FirstBusy(w.slots, w.tick, 0), now)
    ensures InTime(w, now)
  {
    hide Inv, Pending, NextCascade;
    var i := FirstBusy(w.slots, w.tick, 0);
    FirstBusyIs(w.slots, w.tick, 0);
    if w.active == 0 {
      assert Pending(w.slots) == multiset{};
    } else if i < 256 {
      TimeoutExact(w.slots, w.tick, w.active, now);
    } else {
      TimeoutBlind(w.slots, w.tick, w.active, now);
    }
  }

  /** Add a timer due at the next cascade, 256 ticks ahead of it, and catch up to `c`. */
  function BlindOvershoot(c: nat): seq<Op> {
    var due := NextCascade(c);
    [Tick(due - 256), Add(Key(1, due)), Tick(c)]
  }

  /** With `tv1_` empty the fixed 50 ms run past a timer due at the next cascade, if that is nearer. */
  lemma BlindSharp(c: nat, now: nat)
    requires NextCascade(c) < TWO64 && NextCascade(c) < now + 50
    ensures Runnable(New(), BlindOvershoot(c))
    ensures var w := Run(New(), BlindOvershoot(c)).0;
            && w.tick == c && FirstBusy(w.slots, c, 0) == 256
            && Key(1, NextCascade(c)) in Pending(w.slots)
            && Timeout(w.slots, c, w.active, now) == 50
  {
    hide Do, Run, Runnable, FirstBusy, Timeout, Pending, Ticks, ReaddsUntil;
    var w1, w2 := OvershootFirst(c);
    var due := NextCascade(c);
    NextCascadeNear(c);
    QuietTicks(w2.slots, due - 256, c, due);
    var w3 := BlindCatchUp(c, w2);
    BlindRun(c, w1, w2, w3);
    BlindPending(w3, c, now);
  }

  lemma NextCascadeNear(c: nat)
    ensures NextCascade(c) % 256 == 0 && NextCascade(c) - 256 <= c <= NextCascade(c)
  {
  }

  lemma BlindCatchUp(c: nat, w2: Wheel) returns (w3: Wheel)
    requires c < TWO64 && w2.tick <= c && w2.active > 0 && Ticks(w2.slots, w2.tick, c) == (w2.slots, [])
    ensures w3 == Do(w2, Tick(c)).0 && w3.tick == c && w3.slots == w2.slots && w3.active > 0
  {
    hide Ticks, ReaddsUntil;
    w3 := Do(w2, Tick(c)).0;
  }

  lemma BlindRun(c: nat, w1: Wheel, w2: Wheel, w3: Wheel)
    requires NextCascade(c) < TWO64 && c < TWO64
    requires Do(New(), Tick(NextCascade(c) - 256)).0 == w1
    requires w1.tick <= NextCascade(c) && Do(w1, Add(Key(1, NextCascade(c)))).0 == w2
    requires Do(w2, Tick(c)).0 == w3
    ensures Runnable(New(), BlindOvershoot(c)) && Run(New(), BlindOvershoot(c)).0 == w3
  {
    hide Do;
    var ops := BlindOvershoot(c);
    assert ops[1..][0] == ops[1] && ops[1..][1..] == ops[2..];
    assert ops[2..][0] == ops[2] && ops[2..][1..] == [];
    assert Runnable(w3, []);
    assert Runnable(w2, ops[2..]) && Run(w2, ops[2..]).0 == w3;
    assert Runnable(w1, ops[1..]) && Run(w1, ops[1..]).0 == w3;
  }

  lemma BlindPending(w: Wheel, c: nat, now: nat)
    requires w.tick == c && w.active > 0 && NextCascade(c) < now + 50
    requires var due := NextCascade(c);
             due >= 256 && w.slots == Empty()[SlotAt(2, due) := [Timer(1, due, due - 256, 0)]]
    ensures FirstBusy(w.slots, c, 0) == 256 && Key(1, NextCascade(c)) in Pending(w.slots)
    ensures Timeout(w.slots, c, w.active, now) == 50
  {
    hide Pending, NextCascade;
    FirstBusyIs(w.slots, c, 0);
    InSlot(w.slots, SlotAt(2, NextCascade(c)), 0);
  }

  /** A wheel a program can reach, seen at tick `c` with the scan stopping at offset `i`. */
  ghost predicate Reaches(ops: seq<Op>, c: nat, i: nat) {
    Runnable(New(), ops) && Run(New(), ops).0.tick == c && FirstBusy(Run(New(), ops).0.slots, c, 0) == i
  }

  /** For every tick, scan offset and clock: `next_timeout` is in time on every run that gets there if
      and only if `SafeAt` holds. */
  lemma TimeoutCondition(c: nat, i: nat, now: nat)
    requires i <= 256 && (if i < 256 then c + i < TWO64 else NextCascade(c) < TWO64)
    ensures SafeAt(c, i, now) <==> forall ops :: Reaches(ops, c, i) ==> InTime(Run(New(), ops).0, now)
  {
    hide Run, Runnable, FirstBusy, Timeout, Pending, NextCascade, Good;
    if SafeAt(c, i, now) {
      forall ops | Reaches(ops, c, i)
        ensures InTime(Run(New(), ops).0, now)
      {
        NewIsGood();
        var states := RunRefines(New(), ops);
        SafeInTime(Run(New(), ops).0, now);
      }
    } else if i < 256 {
      TimeoutSharp(c, i);
      assert Reaches(Overshoot(c, i), c, i);
    } else {
      BlindSharp(c, now);
      assert Reaches(BlindOvershoot(c), c, i);
    }
  }
}
