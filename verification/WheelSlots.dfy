/**
 The five-level hierarchical time wheel on values: which slot a timer goes to, what one
 cascade and one tick do to the slots, and the invariant that makes every timer fire at
 its own tick.

 The five slot arrays are laid out in one sequence of 512 slots: slots 0..255 are `tv1_`,
 then 64 slots each for `tv2_`, `tv3_`, `tv4_` and `tv5_`, so a slot number plays the role
 of a `TimerNode**`.  Shifts and masks are written as division and remainder by powers
 of two.
 */
module WheelSlots {
  import opened Basics

  /** What a caller knows about a pending timer. */
  datatype Key = Key(handle: Handle, expires: nat)

  /** A timer in a slot. `added` is the tick at which it entered the wheel and `moves` counts
      how often a cascade has re-added it since. */
  datatype Timer = Timer(handle: Handle, expires: nat, added: nat, moves: nat) {
    function AsKey(): Key { Key(handle, expires) }
    function Moved(): Timer { this.(moves := moves + 1) }
  }

  const SLOTS := 512
  const REVOLUTION := 0x1_0000_0000
  const TWO64 := 0x1_0000_0000_0000_0000

  type Slots = s: seq<seq<Timer>> | |s| == SLOTS witness seq(SLOTS, _ => [])

  function Empty(): Slots { seq(SLOTS, _ => []) }

  // --- Levels -------------------------------------------------------------------------

  type Level = l: nat | 1 <= l <= 5 witness 1

  /** Number of ticks covered by one slot of a level. */
  function Gran(l: Level): nat {
    if l == 1 then 1 else if l == 2 then 0x100 else if l == 3 then 0x4000
    else if l == 4 then 0x10_0000 else 0x400_0000
  }

  function Size(l: Level): nat { if l == 1 then 256 else 64 }

  /** Number of the first slot of a level. */
  function Base(l: Level): nat { if l == 1 then 0 else 256 + 64 * (l - 2) }

  function LevelOf(k: nat): Level
    requires k < SLOTS
  {
    if k < 256 then 1 else 2 + (k - 256) / 64
  }

  /** The level chosen by `add_timer` for a timer that is `idx` ticks away. */
  function LevelFor(idx: nat): Level {
    if idx < 0x100 then 1 else if idx < 0x4000 then 2 else if idx < 0x10_0000 then 3
    else if idx < 0x400_0000 then 4 else 5
  }

  function SlotAt(l: Level, e: nat): (k: nat)
    ensures k < SLOTS && LevelOf(k) == l
  {
    Base(l) + (e / Gran(l)) % Size(l)
  }

  /** The slot chosen by `add_timer`; the distance is an unsigned 64-bit difference. */
  function SlotFor(e: nat, c: nat): (k: nat)
    ensures k < SLOTS
  {
    SlotAt(LevelFor((e - c) % TWO64), e)
  }

  /** The tick at which a timer's slot of level `l` is due: its expiry rounded down. */
  function Due(l: Level, e: nat): nat { e - e % Gran(l) }

  /** Upper bound on the number of cascades still ahead of a timer at the start of tick `c`. */
  function Rank(l: Level, e: nat, c: nat): nat {
    if l < 5 then l - 1
    else if c <= Due(5, e) then 4 + (Due(5, e) - c) / REVOLUTION else 4
  }

  /** The most cascades a timer added at `added` can see. */
  function MoveBudget(e: nat, added: nat): nat
    requires added <= e
  {
    4 + (e - added) / REVOLUTION
  }

  // --- The placement invariant --------------------------------------------------------

  /** Timer `t` may sit in slot `k` when `c` is the first tick whose visit of that slot is
      still to come: the visit that takes it out comes no later than its expiry, and (below
      the top level) it is the very next one. */
  predicate Placed(t: Timer, k: nat, c: nat)
    requires k < SLOTS
  {
    var l := LevelOf(k);
    && k == SlotAt(l, t.expires)
    && c <= Due(l, t.expires)
    && (l > 1 ==> 0 < Due(l, t.expires))
    && (l < 5 ==> Due(l, t.expires) < c + Size(l) * Gran(l))
    && t.added <= c && t.added <= t.expires < t.added + TWO64
    && t.moves + Rank(l, t.expires, c) <= MoveBudget(t.expires, t.added)
  }

  /** While tick `c` is being processed, levels 2..d have been cascaded already. */
  function Horizon(k: nat, c: nat, d: Level): nat
    requires k < SLOTS
  {
    if 2 <= LevelOf(k) <= d then c + 1 else c
  }

  ghost predicate ListPlaced(list: seq<Timer>, k: nat, c: nat)
    requires k < SLOTS
  {
    forall i :: 0 <= i < |list| ==> Placed(list[i], k, c)
  }

  ghost predicate Mid(s: Slots, c: nat, d: Level) {
    forall k :: 0 <= k < SLOTS ==> ListPlaced(s[k], k, Horizon(k, c, d))
  }

  /** The invariant at every head of the loop of `tick`. */
  ghost predicate Inv(s: Slots, c: nat) {
    forall k :: 0 <= k < SLOTS ==> ListPlaced(s[k], k, c)
  }

  // --- The operations -----------------------------------------------------------------

  function Insert(s: Slots, t: Timer, c: nat): Slots {
    var k := SlotFor(t.expires, c);
    s[k := [t] + s[k]]
  }

  /** The loop of `cascade`: every timer of a detached list is added again. */
  function ReAdd(s: Slots, list: seq<Timer>, c: nat): Slots
    decreases |list|
  {
    if list == [] then s
    else ReAdd(Insert(s, list[0].Moved(), c), list[1..], c)
  }

  function Cascade(s: Slots, l: Level, c: nat): Slots {
    var k := SlotAt(l, c);
    ReAdd(s[k := []], s[k], c)
  }

  /** The cascade of level `l` and, when that level's index is 0, of the levels above it. */
  function CascadesFrom(s: Slots, l: Level, c: nat): Slots
    requires l >= 2
    decreases 5 - l
  {
    var s' := Cascade(s, l, c);
    if l < 5 && SlotAt(l, c) == Base(l) then CascadesFrom(s', l + 1, c) else s'
  }

  /** How many timers those cascades add again. */
  function ReaddsFrom(s: Slots, l: Level, c: nat): nat
    requires l >= 2
    decreases 5 - l
  {
    |s[SlotAt(l, c)]| +
    if l < 5 && SlotAt(l, c) == Base(l) then ReaddsFrom(Cascade(s, l, c), l + 1, c) else 0
  }

  /** The cascades at the head of a tick. */
  function Cascades(s: Slots, c: nat): Slots {
    if c % 256 == 0 && c > 0 then CascadesFrom(s, 2, c) else s
  }

  function Readds(s: Slots, c: nat): nat {
    if c % 256 == 0 && c > 0 then ReaddsFrom(s, 2, c) else 0
  }

  function ReaddsUntil(s: Slots, c: nat, until: nat): nat
    decreases until - c
  {
    if until <= c then 0 else Readds(s, c) + ReaddsUntil(Step(s, c).0, c + 1, until)
  }

  /** One round of the loop of `tick`: the slots it leaves and the timers it fires, in order. */
  function Step(s: Slots, c: nat): (Slots, seq<Timer>) {
    var s' := Cascades(s, c);
    (s'[c % 256 := []], s'[c % 256])
  }

  /** The whole loop of `tick(until)` started at tick `c`. */
  function Ticks(s: Slots, c: nat, until: nat): (Slots, seq<Timer>)
    decreases until - c
  {
    if until <= c then (s, [])
    else
      var (s1, fired) := Step(s, c);
      var (s2, later) := Ticks(s1, c + 1, until);
      (s2, fired + later)
  }

  lemma TicksUnfold(s: Slots, c: nat, until: nat)
    requires c < until
    ensures Ticks(s, c, until).0 == Ticks(Step(s, c).0, c + 1, until).0
    ensures Ticks(s, c, until).1 == Step(s, c).1 + Ticks(Step(s, c).0, c + 1, until).1
    ensures ReaddsUntil(s, c, until) == Readds(s, c) + ReaddsUntil(Step(s, c).0, c + 1, until)
  {
  }

  lemma TicksDone(s: Slots, c: nat, until: nat)
    requires until <= c
    ensures Ticks(s, c, until) == (s, []) && ReaddsUntil(s, c, until) == 0
  {
  }

  function Handles(list: seq<Timer>): seq<Handle> {
    seq(|list|, i requires 0 <= i < |list| => list[i].handle)
  }

  lemma OneHandle(t: Timer)
    ensures Handles([t]) == [t.handle]
  {
  }

  lemma HandlesAppend(a: seq<Timer>, b: seq<Timer>)
    ensures Handles(a + b) == Handles(a) + Handles(b) && Handles([]) == []
  {
  }

  // --- Arithmetic of placement --------------------------------------------------------

  /** Below the top level a slot holds, when its turn comes, only timers due at that tick. */
  lemma VisitIsDue(l: Level, e: nat, c: nat)
    requires l < 5 && c % Gran(l) == 0 && SlotAt(l, c) == SlotAt(l, e)
    requires c <= Due(l, e) < c + Size(l) * Gran(l)
    ensures Due(l, e) == c
  {
    var g := Gran(l);
    var i, j := e / g, c / g;
    assert Due(l, e) == g * i && c == g * j;
    assert j <= i < j + Size(l);
    SameResidue(i, j, Size(l));
  }

  lemma SameResidue(i: nat, j: nat, n: nat)
    requires (n == 256 || n == 64) && j <= i < j + n && i % n == j % n
    ensures i == j
  {
  }

  lemma TopVisit(e: nat, c: nat) returns (m: nat)
    requires c % Gran(5) == 0 && SlotAt(5, c) == SlotAt(5, e) && c <= Due(5, e)
    ensures Due(5, e) == c + m * REVOLUTION
  {
    m := (Due(5, e) - c) / REVOLUTION;
  }

  lemma FreshPlacement(e: nat, c: nat)
    requires c <= e < c + TWO64
    ensures var l := LevelFor(e - c);
            && SlotFor(e, c) == SlotAt(l, e)
            && (l == 1 ==> c <= Due(l, e)) && (l > 1 ==> c < Due(l, e))
            && (l < 5 ==> Due(l, e) < c + Size(l) * Gran(l))
  {
  }
}
