/**
 The single-producer single-consumer ring as a transition system: one transition per atomic
 load or store and per construction, move or destruction of a cell, with the producer and the
 consumer interleaved in every possible way.

 `made`, `out`, `published` and `consumed` are history: the items constructed so far, the items
 handed to the consumer, and how often the two counters have been stored.
 */
module SpscRing {
  import opened RingMath

  const WRAP := 0x1_0000_0000_0000_0000

  type Item = int

  datatype Cell = Raw | Live(item: Item)

  datatype Producer =
    | Idle
    | HasTail(item: Item, tail: nat)          // tail_ loaded
    | HasRoom(item: Item, tail: nat)          // head_ loaded, not full
    | Built(tail: nat)                        // cell constructed, tail_ not yet stored

  datatype Consumer =
    | Ready
    | HasHead(head: nat)                      // head_ loaded
    | NotEmpty(head: nat)                     // tail_ loaded, not empty
    | Moved(head: nat)                        // item moved out
    | Destroyed(head: nat)                    // cell destroyed, head_ not yet stored

  datatype Ring = Ring(
    capacity: nat,
    head: nat,
    tail: nat,
    cells: seq<Cell>,
    producer: Producer,
    consumer: Consumer,
    made: seq<Item>,
    out: seq<Item>,
    published: nat,
    consumed: nat,
    clash: bool)                              // a live cell was overwritten, or a raw one read or destroyed

  datatype Action = StartPush(item: Item) | Produce | StartPop | Consume

  function Initial(capacity: nat): Ring {
    Ring(capacity, 0, 0, seq(capacity, _ => Raw), Idle, Ready, [], [], 0, 0, false)
  }

  predicate Shape(r: Ring) { 0 < r.capacity == |r.cells| }

  /** The full test of `push`, on unsigned 64-bit counters. */
  predicate IsFull(tail: nat, head: nat, capacity: nat) {
    ((tail + 1) % WRAP - head) % WRAP > capacity
  }

  function Next(r: Ring, a: Action): Ring
    requires Shape(r)
  {
    match a
    case StartPush(item) => if r.producer.Idle? then r.(producer := HasTail(item, r.tail)) else r
    case Produce =>
      (match r.producer
       case Idle => r
       case HasTail(item, tail) =>
         r.(producer := if IsFull(tail, r.head, r.capacity) then Idle else HasRoom(item, tail))
       case HasRoom(item, tail) =>
         var k := tail % r.capacity;
         r.(producer := Built(tail), cells := r.cells[k := Live(item)], made := r.made + [item],
            clash := r.clash || r.cells[k].Live?)
       case Built(tail) =>
         r.(producer := Idle, tail := (tail + 1) % WRAP, published := r.published + 1))
    case StartPop => if r.consumer.Ready? then r.(consumer := HasHead(r.head)) else r
    case Consume =>
      (match r.consumer
       case Ready => r
       case HasHead(head) => r.(consumer := if head == r.tail then Ready else NotEmpty(head))
       case NotEmpty(head) =>
         var c := r.cells[head % r.capacity];
         r.(consumer := Moved(head), out := if c.Live? then r.out + [c.item] else r.out, clash := r.clash || c.Raw?)
       case Moved(head) =>
         var k := head % r.capacity;
         r.(consumer := Destroyed(head), cells := r.cells[k := Raw], clash := r.clash || r.cells[k].Raw?)
       case Destroyed(head) =>
         r.(consumer := Ready, head := (head + 1) % WRAP, consumed := r.consumed + 1))
  }

  // --- The invariant ----------------------------------------------------------------------

  /** Items whose cells have been destroyed. */
  function Gone(r: Ring): nat { r.consumed + if r.consumer.Destroyed? then 1 else 0 }

  /** Items already handed over. */
  function Handed(r: Ring): nat {
    r.consumed + if r.consumer.Destroyed? || r.consumer.Moved? then 1 else 0
  }

  ghost predicate CellsInv(r: Ring)
    requires Shape(r)
  {
    && (forall j :: Gone(r) <= j < |r.made| ==> r.cells[j % r.capacity] == Live(r.made[j]))
    && (forall j :: |r.made| <= j < Gone(r) + r.capacity ==> r.cells[j % r.capacity] == Raw)
  }

  ghost predicate CountsInv(r: Ring) {
    && r.tail == r.published % WRAP && r.head == r.consumed % WRAP
    && r.consumed <= r.published <= r.consumed + r.capacity
    && |r.made| == r.published + (if r.producer.Built? then 1 else 0)
    && |r.made| <= r.consumed + r.capacity
    && Gone(r) <= Handed(r) <= r.published
    && r.out == r.made[..Handed(r)]
  }

  ghost predicate ProgramsInv(r: Ring) {
    && (!r.producer.Idle? ==> r.producer.tail == r.tail)
    && (r.producer.HasRoom? ==> r.published < r.consumed + r.capacity)
    && (!r.consumer.Ready? ==> r.consumer.head == r.head)
    && (!r.consumer.Ready? && !r.consumer.HasHead? ==> r.consumed < r.published)
  }

  ghost predicate Inv(r: Ring) {
    Shape(r) && IsCapacity(r.capacity, WRAP) && CountsInv(r) && ProgramsInv(r) && CellsInv(r) && !r.clash
  }

  lemma CounterSlot(x: nat, n: nat)
    requires IsCapacity(n, WRAP)
    ensures (x % WRAP) % n == x % n
  {
    var m: nat :| Divides(n, m, WRAP);
    WrappedSlot(x, n, m, WRAP);
  }

  /** Changing the slot of position `i` leaves the other positions of a window of `n` alone. */
  lemma OtherPositions(n: nat, lo: nat, i: nat)
    requires n > 0 && lo <= i <= lo + n
    ensures forall j :: lo <= j < lo + n && j != i && i < lo + n ==> j % n != i % n
  {
    forall j | lo <= j < lo + n && j != i && i < lo + n
      ensures j % n != i % n
    {
      if j < i { SlotsApart(j, i, n); } else { SlotsApart(i, j, n); }
    }
  }

  lemma InitialInv(capacity: nat)
    requires IsCapacity(capacity, WRAP)
    ensures Inv(Initial(capacity))
  {
  }

  /** The full test is exact: it refuses a push just when the ring held `capacity` items at the
      moment `head_` was loaded, whatever the counters have wrapped to. */
  lemma FullTest(r: Ring)
    requires Inv(r) && r.producer.HasTail?
    ensures IsFull(r.producer.tail, r.head, r.capacity) <==> r.published - r.consumed == r.capacity
  {
    WrappedNext(r.published, WRAP);
    WrappedDifference(r.published + 1, r.consumed, WRAP);
  }

  /** The empty test is exact too. */
  lemma EmptyTest(r: Ring)
    requires Inv(r) && r.consumer.HasHead?
    ensures r.consumer.head == r.tail <==> r.published == r.consumed
  {
    WrappedEqual(r.published, r.consumed, WRAP);
  }

  lemma BuildInv(r: Ring)
    requires Inv(r) && r.producer.HasRoom?
    ensures Inv(Next(r, Produce))
  {
    hide IsCapacity;
    var r' := Next(r, Produce);
    var p := r.published;
    CounterSlot(p, r.capacity);
    assert r.cells[p % r.capacity] == Raw;
    OtherPositions(r.capacity, Gone(r), p);
    assert forall j :: 0 <= j < p ==> r'.made[j] == r.made[j];
  }

  lemma TakeInv(r: Ring)
    requires Inv(r) && r.consumer.NotEmpty?
    ensures Inv(Next(r, Consume)) && Next(r, Consume).out == r.out + [r.made[r.consumed]]
  {
    hide IsCapacity;
    CounterSlot(r.consumed, r.capacity);
    assert r.cells[r.consumed % r.capacity] == Live(r.made[r.consumed]);
    assert r.made[..r.consumed + 1] == r.made[..r.consumed] + [r.made[r.consumed]];
  }

  lemma DestroyInv(r: Ring)
    requires Inv(r) && r.consumer.Moved?
    ensures Inv(Next(r, Consume))
  {
    hide IsCapacity;
    var c := r.consumed;
    CounterSlot(c, r.capacity);
    assert r.cells[c % r.capacity] == Live(r.made[c]);
    DestroyedCells(r, Next(r, Consume), c);
    hide CellsInv;
  }

  lemma DestroyedCells(r: Ring, r': Ring, c: nat)
    requires Shape(r) && Shape(r') && r'.capacity == r.capacity && CellsInv(r)
    requires c == Gone(r) < |r.made| <= c + r.capacity && Gone(r') == c + 1
    requires r'.made == r.made && r'.cells == r.cells[c % r.capacity := Raw]
    ensures CellsInv(r')
  {
    var n := r.capacity;
    OtherPositions(n, c, c);
    assert n * (c / n + 1) == n * (c / n) + n;
    RemainderIs(c + n, n, c / n + 1, c % n);
    forall j | Gone(r') <= j < |r.made|
      ensures r'.cells[j % n] == Live(r.made[j])
    {
      assert j % n != c % n;
    }
    forall j | |r.made| <= j < Gone(r') + n
      ensures r'.cells[j % n] == Raw
    {
      if j < c + n { assert r.cells[j % n] == Raw; }
    }
  }

  lemma StepInv(r: Ring, a: Action)
    requires Inv(r)
    ensures Inv(Next(r, a))
  {
    hide IsCapacity;
    match a
    case StartPush(item) =>
    case StartPop =>
    case Produce =>
      if r.producer.HasTail? { FullTest(r); }
      if r.producer.HasRoom? { BuildInv(r); }
      if r.producer.Built? { WrappedNext(r.published, WRAP); }
    case Consume =>
      if r.consumer.HasHead? { EmptyTest(r); }
      if r.consumer.NotEmpty? { TakeInv(r); }
      if r.consumer.Moved? { DestroyInv(r); }
      if r.consumer.Destroyed? { WrappedNext(r.consumed, WRAP); }
  }

  // --- Refinement of a bounded queue --------------------------------------------------------

  /** The abstract queue: published items not yet consumed. */
  function Queue(r: Ring): seq<Item>
    requires r.consumed <= r.published <= |r.made|
  {
    r.made[r.consumed..r.published]
  }

  /** The bounded queue that the ring implements: a store of `tail_` appends the pushed item when
      there is room, a store of `head_` removes the oldest item, which is the one handed out, and
      every other step leaves the queue alone. */
  lemma StepRefines(r: Ring, a: Action)
    requires Inv(r)
    ensures var r' := Next(r, a);
            && CountsInv(r') && |Queue(r')| <= r.capacity
            && (if a == Produce && r.producer.Built? then
                  |Queue(r)| < r.capacity && Queue(r') == Queue(r) + [r.made[|r.made| - 1]]
                else if a == Consume && r.consumer.Destroyed? then
                  Queue(r) != [] && Queue(r') == Queue(r)[1..] && r.out[|r.out| - 1] == Queue(r)[0]
                else Queue(r') == Queue(r))
  {
    StepInv(r, a);
    hide CellsInv, IsCapacity, ProgramsInv;
    var r' := Next(r, a);
    if a == Produce && r.producer.Built? {
      PublishRefines(r);
    } else if a == Consume && r.consumer.Destroyed? {
      ReleaseRefines(r);
    } else {
      assert r'.consumed == r.consumed && r'.published == r.published;
      assert r'.made[..|r.made|] == r.made;
      SameWindow(r.made, r'.made, r.consumed, r.published);
    }
  }

  lemma SameWindow(a: seq<Item>, b: seq<Item>, lo: nat, hi: nat)
    requires lo <= hi <= |a| <= |b| && b[..|a|] == a
    ensures b[lo..hi] == a[lo..hi]
  {
    assert forall i :: 0 <= i < |a| ==> b[i] == b[..|a|][i];
  }

  lemma PublishRefines(r: Ring)
    requires Inv(r) && r.producer.Built?
    ensures var r' := Next(r, Produce);
            CountsInv(r') && |Queue(r)| < r.capacity && Queue(r') == Queue(r) + [r.made[|r.made| - 1]]
  {
    StepInv(r, Produce);
    hide CellsInv, IsCapacity;
  }

  lemma ReleaseRefines(r: Ring)
    requires Inv(r) && r.consumer.Destroyed?
    ensures var r' := Next(r, Consume);
            CountsInv(r') && Queue(r) != [] && Queue(r') == Queue(r)[1..] && r.out[|r.out| - 1] == Queue(r)[0]
  {
    StepInv(r, Consume);
    hide CellsInv, IsCapacity;
  }

  // --- The operations ----------------------------------------------------------------------

  /** The step after the load of `head_`: a push goes on exactly when the queue has room at that moment,
      and is refused otherwise, with nothing else changed. */
  lemma PushRefusedIffFull(r: Ring)
    requires Inv(r) && r.producer.HasTail?
    ensures var room := |Queue(r)| < r.capacity;
            Next(r, Produce) == r.(producer := if room then HasRoom(r.producer.item, r.producer.tail) else Idle)
  {
    FullTest(r);
  }

  /** The step after the load of `tail_`: a pop goes on exactly when the queue is not empty. */
  lemma PopRefusedIffEmpty(r: Ring)
    requires Inv(r) && r.consumer.HasHead?
    ensures Next(r, Consume) == r.(consumer := if Queue(r) == [] then Ready else NotEmpty(r.consumer.head))
  {
    EmptyTest(r);
  }

  /** A push from beginning to end: it appends the item, or finds the ring full and leaves it as it was. */
  lemma PushCompletes(r: Ring, x: Item)
    requires Inv(r) && r.producer.Idle?
    ensures var r1 := Next(Next(r, StartPush(x)), Produce);
            var r' := Next(Next(r1, Produce), Produce);
            if |Queue(r)| < r.capacity then
              Inv(r') && r'.producer.Idle? && Queue(r') == Queue(r) + [x] && r'.consumer == r.consumer
            else r1 == r
  {
    var r0 := Next(r, StartPush(x));
    StepInv(r, StartPush(x));
    PushRefusedIffFull(r0);
    if |Queue(r)| < r.capacity {
      var r1 := Next(r0, Produce);
      StepInv(r0, Produce);
      StepInv(r1, Produce);
      var r2 := Next(r1, Produce);
      Published(r1, x);
      StepInv(r2, Produce);
      PublishRefines(r2);
    }
  }

  lemma Published(r: Ring, x: Item)
    requires Inv(r) && r.producer.HasRoom? && r.producer.item == x
    ensures var r' := Next(r, Produce);
            && CountsInv(r') && r'.producer.Built? && r'.consumer == r.consumer
            && Queue(r') == Queue(r) && r'.made[|r'.made| - 1] == x
  {
    StepInv(r, Produce);
    StepRefines(r, Produce);
  }

  /** A pop from beginning to end: it hands out the oldest item and removes it, or finds the ring empty
      and leaves it as it was. */
  lemma PopCompletes(r: Ring)
    requires Inv(r) && r.consumer.Ready?
    ensures var r1 := Next(Next(r, StartPop), Consume);
            var r' := Next(Next(Next(r1, Consume), Consume), Consume);
            if Queue(r) != [] then
              Inv(r') && r'.consumer.Ready? && r'.out == r.out + [Queue(r)[0]] && Queue(r') == Queue(r)[1..]
              && r'.producer == r.producer
            else r1 == r
  {
    var r0 := Next(r, StartPop);
    StepInv(r, StartPop);
    PopRefusedIffEmpty(r0);
    if Queue(r) != [] {
      var r1 := Next(r0, Consume);
      StepInv(r0, Consume);
      TakeInv(r1);
      var r2 := Next(r1, Consume);
      StepRefines(r1, Consume);
      DestroyInv(r2);
      var r3 := Next(r2, Consume);
      StepRefines(r2, Consume);
      StepInv(r3, Consume);
      ReleaseRefines(r3);
    }
  }

  function Run(r: Ring, acts: seq<Action>): (r': Ring)
    requires Shape(r)
    ensures Shape(r')
    decreases |acts|
  {
    if acts == [] then r else Run(Next(r, acts[0]), acts[1..])
  }

  lemma {:induction false} RunInv(r: Ring, acts: seq<Action>)
    requires Inv(r)
    ensures Inv(Run(r, acts))
    decreases |acts|
  {
    hide Next, CellsInv, CountsInv, ProgramsInv, IsCapacity;
    if acts != [] {
      StepInv(r, acts[0]);
      RunInv(Next(r, acts[0]), acts[1..]);
    }
  }

  /** Over every interleaving no live cell is overwritten and no raw cell is read or destroyed,
      and what has been handed out is exactly an initial part of what was pushed, in order. */
  lemma FirstInFirstOut(capacity: nat, acts: seq<Action>)
    requires IsCapacity(capacity, WRAP)
    ensures var r := Run(Initial(capacity), acts);
            && !r.clash
            && |r.out| <= |r.made| && r.out == r.made[..|r.out|]
            && |r.made| - |r.out| <= capacity
  {
    hide Next, Run, CellsInv, ProgramsInv;
    InitialInv(capacity);
    RunInv(Initial(capacity), acts);
    SameCapacity(Initial(capacity), acts);
  }

  lemma {:induction false} SameCapacity(r: Ring, acts: seq<Action>)
    requires Shape(r)
    ensures Run(r, acts).capacity == r.capacity
    decreases |acts|
  {
    if acts != [] { SameCapacity(Next(r, acts[0]), acts[1..]); }
  }

  // --- The destructor -----------------------------------------------------------------------

  function LiveCells(items: seq<Item>): seq<Cell> {
    seq(|items|, i requires 0 <= i < |items| => Live(items[i]))
  }

  /** What one complete pop does to a ring at rest. */
  lemma PopOnce(r: Ring) returns (r': Ring)
    requires Inv(r) && r.producer.Idle? && r.consumer.Ready? && r.consumed < r.published
    ensures Inv(r') && r'.producer.Idle? && r'.consumer.Ready?
    ensures r'.head == (r.head + 1) % WRAP && r'.tail == r.tail && r'.cells == r.cells[r.head % r.capacity := Raw]
    ensures r'.consumed == r.consumed + 1 && r'.published == r.published && r'.made == r.made
    ensures r'.capacity == r.capacity && r.cells[r.head % r.capacity] == Live(Queue(r)[0])
  {
    var r0 := r.(consumer := NotEmpty(r.head));
    TakeInv(r0);
    CounterSlot(r.consumed, r.capacity);
    var r1 := Next(r0, Consume);
    DestroyInv(r1);
    var r2 := Next(r1, Consume);
    StepInv(r2, Consume);
    r' := Next(r2, Consume);
  }

  lemma AtRest(r: Ring)
    requires Inv(r) && r.producer.Idle? && r.consumer.Ready?
    ensures r.consumed <= r.published == |r.made| && Shape(r)
    ensures r.head == r.tail <==> r.published == r.consumed
    ensures r.published == r.consumed ==>
              forall j :: r.published <= j < r.published + r.capacity ==> r.cells[j % r.capacity] == Raw
  {
    hide IsCapacity;
    EmptyTest(r.(consumer := HasHead(r.head)));
  }

  /** Every cell is the slot of some position in a window of `n` positions. */
  lemma EverySlot(p: nat, n: nat, k: nat) returns (j: nat)
    requires k < n
    ensures p <= j < p + n && j % n == k
  {
    var q, b := p / n, p % n;
    assert p == n * q + b;
    if k >= b {
      j := p + k - b;
      RemainderIs(j, n, q, k);
    } else {
      j := p + n - b + k;
      assert n * (q + 1) == n * q + n;
      RemainderIs(j, n, q + 1, k);
    }
  }

  lemma AllRaw(r: Ring)
    requires Inv(r) && r.producer.Idle? && r.consumer.Ready? && r.published == r.consumed
    ensures forall k :: 0 <= k < r.capacity ==> r.cells[k] == Raw
  {
    AtRest(r);
    forall k | 0 <= k < r.capacity ensures r.cells[k] == Raw {
      var j := EverySlot(r.published, r.capacity, k);
    }
  }

  /** The loop of the destructor, with both sides idle: it ends, destroys exactly the queued items,
      each once and in order, and leaves no live cell behind. `gone` lists the cells destroyed. */
  method Destruct(r: Ring) returns (gone: seq<Cell>, cells: seq<Cell>)
    requires Inv(r) && r.producer.Idle? && r.consumer.Ready?
    ensures gone == LiveCells(r.made[r.consumed..r.published])
    ensures |cells| == r.capacity && forall k :: 0 <= k < r.capacity ==> cells[k] == Raw
  {
    hide CellsInv, CountsInv, ProgramsInv, IsCapacity;
    var head := r.head;
    cells := r.cells;
    gone := [];
    ghost var now := r;
    AtRest(r);
    while head != r.tail
      invariant Inv(now) && now.producer.Idle? && now.consumer.Ready? && now.capacity == r.capacity
      invariant now.head == head && now.tail == r.tail && now.cells == cells
      invariant now.made == r.made && now.published == r.published
      invariant r.consumed <= now.consumed <= r.published == |r.made|
      invariant gone == LiveCells(r.made[r.consumed..now.consumed])
      decreases r.published - now.consumed
    {
      AtRest(now);
      gone := gone + [cells[head % r.capacity]];
      cells := cells[head % r.capacity := Raw];
      head := (head + 1) % WRAP;
      ghost var c := now.consumed;
      now := PopOnce(now);
      assert r.made[r.consumed..c + 1] == r.made[r.consumed..c] + [r.made[c]];
    }
    AtRest(now);
    AllRaw(now);
  }
}
