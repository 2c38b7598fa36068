/**
 The ready handles of one scheduler: the `runnext_` slot in front of the local queue, and the
 batches the event loop takes from both.
 */
module Batching {
  import opened Basics
  import opened RingMath
  import opened LocalQueues

  const BATCH := 16

  /** The ready handles on values. */
  datatype Ready = Ready(runnext: Handle, queue: seq<Handle>)

  datatype Op = Schedule(handle: Handle) | TakeBatch

  function ScheduleIn(r: Ready, h: Handle): Ready {
    if r.runnext == 0 then r.(runnext := h) else r.(queue := r.queue + [h])
  }

  /** Pops until `n` handles are taken or a pop returns null; a null handle that was queued is
      popped, but it ends the batch. */
  function Pops(queue: seq<Handle>, n: nat): (seq<Handle>, seq<Handle>)
    decreases n
  {
    if n == 0 || queue == [] then ([], queue)
    else if queue[0] == 0 then ([], queue[1..])
    else
      var (taken, rest) := Pops(queue[1..], n - 1);
      ([queue[0]] + taken, rest)
  }

  /** All ready handles in the order in which they would be returned if nothing else was scheduled. */
  function Order(r: Ready): seq<Handle> { First(r) + r.queue }

  /** A scheduled handle goes behind all others, except that it goes before them all when `runnext_` is
      free. */
  lemma ScheduleOrder(r: Ready, h: Handle)
    requires h != 0
    ensures Order(ScheduleIn(r, h)) == if r.runnext == 0 then [h] + Order(r) else Order(r) + [h]
  {
  }

  function First(r: Ready): seq<Handle> { if r.runnext == 0 then [] else [r.runnext] }

  function Batch(r: Ready, max: nat): (Ready, seq<Handle>)
    requires max > 0
  {
    var (taken, rest) := Pops(r.queue, max - |First(r)|);
    (Ready(0, rest), First(r) + taken)
  }

  function Do(r: Ready, op: Op): (Ready, seq<Handle>) {
    match op
    case Schedule(h) => (ScheduleIn(r, h), [])
    case TakeBatch => Batch(r, BATCH)
  }

  function Run(r: Ready, ops: seq<Op>): (Ready, seq<Handle>)
    decreases |ops|
  {
    if ops == [] then (r, []) else
    var (r1, out) := Do(r, ops[0]);
    var (r2, more) := Run(r1, ops[1..]);
    (r2, out + more)
  }

  // --- Conservation -------------------------------------------------------------------------

  /** The non-null handles of a list, each as often as it occurs. */
  function Real(list: seq<Handle>): multiset<Handle> { multiset(list)[0 := 0] }

  function Held(r: Ready): multiset<Handle> { Real(First(r) + r.queue) }

  function Scheduled(ops: seq<Op>): seq<Handle> {
    if ops == [] then []
    else (if ops[0].Schedule? then [ops[0].handle] else []) + Scheduled(ops[1..])
  }

  lemma RealAppend(a: seq<Handle>, b: seq<Handle>)
    ensures Real(a + b) == Real(a) + Real(b)
  {
  }

  lemma RealOne(h: Handle)
    ensures Real([h]) == if h == 0 then multiset{} else multiset{h}
    ensures Real([]) == multiset{}
  {
  }

  lemma {:induction false} PopsConserve(queue: seq<Handle>, n: nat)
    ensures var (taken, rest) := Pops(queue, n); Real(queue) == multiset(taken) + Real(rest)
    ensures |Pops(queue, n).0| <= n
    decreases n
  {
    hide Real;
    if n > 0 && queue != [] {
      RealSplit(queue);
      if queue[0] != 0 {
        PopsConserve(queue[1..], n - 1);
        var (taken, rest) := Pops(queue[1..], n - 1);
        FirstTaken([queue[0]], taken);
      }
    }
  }

  lemma RealSplit(queue: seq<Handle>)
    requires queue != []
    ensures Real(queue) == (if queue[0] == 0 then multiset{} else multiset([queue[0]])) + Real(queue[1..])
  {
    assert queue == [queue[0]] + queue[1..];
    RealAppend([queue[0]], queue[1..]);
    RealOne(queue[0]);
  }

  lemma HeldIs(r: Ready)
    ensures Held(r) == (if r.runnext == 0 then multiset{} else multiset{r.runnext}) + Real(r.queue)
  {
    RealAppend(First(r), r.queue);
    RealOne(r.runnext);
  }

  lemma ScheduleConserves(r: Ready, h: Handle)
    ensures Held(r) + Real([h]) == Held(ScheduleIn(r, h))
  {
    HeldIs(r);
    HeldIs(ScheduleIn(r, h));
    RealOne(h);
    RealAppend(r.queue, [h]);
    hide Real, Held;
  }

  lemma BatchConserves(r: Ready)
    ensures Held(r) == Held(Batch(r, BATCH).0) + multiset(Batch(r, BATCH).1)
  {
    var (taken, rest) := Pops(r.queue, BATCH - |First(r)|);
    HeldIs(r);
    HeldIs(Ready(0, rest));
    PopsConserve(r.queue, BATCH - |First(r)|);
    FirstTaken(First(r), taken);
    OneFirst(r);
    hide *;
    BatchIs(r);
    Shuffle(multiset(First(r)), multiset(taken), Real(rest));
  }

  lemma BatchIs(r: Ready)
    ensures var (taken, rest) := Pops(r.queue, BATCH - |First(r)|);
            Batch(r, BATCH) == (Ready(0, rest), First(r) + taken)
  {
  }

  lemma OneFirst(r: Ready)
    ensures multiset(First(r)) == if r.runnext == 0 then multiset{} else multiset{r.runnext}
  {
  }

  lemma FirstTaken(a: seq<Handle>, b: seq<Handle>)
    ensures multiset(a + b) == multiset(a) + multiset(b)
  {
  }

  lemma Shuffle(a: multiset<Handle>, b: multiset<Handle>, c: multiset<Handle>)
    ensures a + (b + c) == (multiset{} + c) + (a + b)
  {
  }

  lemma DoConserves(r: Ready, op: Op)
    ensures var (r', out) := Do(r, op);
            Held(r) + Real(Scheduled([op])) == Held(r') + multiset(out)
  {
    hide Real, Held, ScheduleIn, Batch;
    RealOne(0);
    match op
    case Schedule(h) =>
      assert Scheduled([op]) == [h];
      ScheduleConserves(r, h);
    case TakeBatch =>
      assert Scheduled([op]) == [];
      BatchConserves(r);
  }

  /** Over every run: each non-null handle that is scheduled is returned in a batch exactly once
      or is still held. */
  lemma {:induction false} RunConserves(r: Ready, ops: seq<Op>)
    ensures var (r', out) := Run(r, ops);
            Held(r) + Real(Scheduled(ops)) == Held(r') + multiset(out)
    decreases |ops|
  {
    hide Do, Held;
    RealOne(0);
    if ops != [] {
      var (r1, out) := Do(r, ops[0]);
      DoConserves(r, ops[0]);
      RunConserves(r1, ops[1..]);
      assert Scheduled(ops) == Scheduled([ops[0]]) + Scheduled(ops[1..]) by {
        assert Scheduled([ops[0]]) == (if ops[0].Schedule? then [ops[0].handle] else []) + Scheduled([]);
      }
      RealAppend(Scheduled([ops[0]]), Scheduled(ops[1..]));
      hide Real, Scheduled;
      Rearrange(Held(r), Real(Scheduled([ops[0]])), Real(Scheduled(ops[1..])), Held(r1), multiset(out),
                Held(Run(r1, ops[1..]).0), multiset(Run(r1, ops[1..]).1));
    }
  }

  lemma Rearrange(a: multiset<Handle>, b: multiset<Handle>, c: multiset<Handle>, d: multiset<Handle>,
                  e: multiset<Handle>, f: multiset<Handle>, g: multiset<Handle>)
    requires a + b == d + e && d + c == f + g
    ensures a + (b + c) == f + (e + g)
  {
    assert a + (b + c) == (d + e) + c;
    assert (d + e) + c == (d + c) + e;
  }

  // --- Fairness -------------------------------------------------------------------------------

  ghost predicate NoNulls(list: seq<Handle>) {
    forall i :: 0 <= i < |list| ==> list[i] != 0
  }

  /** Without null handles a batch is `runnext_` followed by the front of the queue, and it is cut
      short only by the batch size. */
  lemma {:induction false} PopsFront(queue: seq<Handle>, n: nat)
    requires NoNulls(queue)
    ensures var k := if |queue| < n then |queue| else n;
            Pops(queue, n) == (queue[..k], queue[k..])
    decreases n
  {
    if n > 0 && queue != [] {
      var k := if |queue| < n then |queue| else n;
      PopsFront(queue[1..], n - 1);
      assert queue[..k] == [queue[0]] + queue[1..][..k - 1] && queue[k..] == queue[1..][k - 1..];
    }
  }

  /** How many handles the next batch takes from the queue. */
  function Taken(r: Ready): nat {
    var n := BATCH - |First(r)|;
    if |r.queue| < n then |r.queue| else n
  }

  lemma BatchShape(r: Ready)
    requires NoNulls(r.queue)
    ensures Do(r, TakeBatch) == (Ready(0, r.queue[Taken(r)..]), First(r) + r.queue[..Taken(r)])
  {
    PopsFront(r.queue, BATCH - |First(r)|);
  }

  /** Place of the first null handle, or the length. */
  function FirstNull(queue: seq<Handle>): (k: nat)
    ensures k <= |queue|
  {
    if queue == [] || queue[0] == 0 then 0 else 1 + FirstNull(queue[1..])
  }

  lemma {:induction false} PopsUntilNull(queue: seq<Handle>, n: nat)
    ensures var k := if FirstNull(queue) < n then FirstNull(queue) else n;
            && Pops(queue, n).0 == queue[..k]
            && Pops(queue, n).1 == if k < n && k < |queue| then queue[k + 1..] else queue[k..]
    decreases n
  {
    if n > 0 && queue != [] && queue[0] != 0 {
      PopsUntilNull(queue[1..], n - 1);
      var k := if FirstNull(queue) < n then FirstNull(queue) else n;
      assert queue[..k] == [queue[0]] + queue[1..][..k - 1] && queue[k..] == queue[1..][k - 1..];
    }
  }

  /** Any batch, with null handles in the queue or not: at most 16 handles, `runnext_` and then the queue
      up to the first null, which is dropped if the batch gets that far. */
  lemma BatchTakes(r: Ready)
    ensures var (r', out) := Do(r, TakeBatch);
            var room := if r.runnext == 0 then 16 else 15;
            var k := if FirstNull(r.queue) < room then FirstNull(r.queue) else room;
            && out == First(r) + r.queue[..k] && |out| <= 16
            && r' == Ready(0, if k < room && k < |r.queue| then r.queue[k + 1..] else r.queue[k..])
  {
    hide Pops, FirstNull, Batch;
    PopsUntilNull(r.queue, BATCH - |First(r)|);
    BatchIs(r);
  }

  function Batches(ops: seq<Op>): nat {
    if ops == [] then 0 else (if ops[0].TakeBatch? then 1 else 0) + Batches(ops[1..])
  }

  /** The shortest part of the run after which the handle now at place `p` of the queue has been
      returned, or the whole run. */
  function Until(r: Ready, ops: seq<Op>, p: nat): (k: nat)
    ensures k <= |ops|
    decreases |ops|
  {
    if ops == [] then 0
    else if ops[0].TakeBatch? && p < Taken(r) then 1
    else 1 + Until(Do(r, ops[0]).0, ops[1..], if ops[0].TakeBatch? && Taken(r) <= p then p - Taken(r) else p)
  }

  ghost predicate NullFree(ops: seq<Op>) {
    forall i :: 0 <= i < |ops| && ops[i].Schedule? ==> ops[i].handle != 0
  }

  /** Bounded waiting: whatever is scheduled meanwhile, the handle with `p` others ahead of it in
      the queue is returned within floor(p / 15) + 1 batches, and the handles returned no later
      than it are at most the p ahead of it, itself, and one `runnext_` handle per batch. */
  lemma {:induction false} BoundedWaiting(r: Ready, ops: seq<Op>, p: nat) returns (i: nat)
    requires NoNulls(r.queue) && NullFree(ops) && p < |r.queue|
    requires p / 15 + 1 <= Batches(ops)
    ensures var k := Until(r, ops, p);
            var out := Run(r, ops[..k]).1;
            && Batches(ops[..k]) <= p / 15 + 1
            && i < |out| && out[i] == r.queue[p]
            && i <= p + Batches(ops[..k])
    decreases |ops|
  {
    hide Do, Run, Batches, Taken, First;
    var k := Until(r, ops, p);
    BatchesHead(ops);
    RunHead(r, ops, k);
    var (r1, out) := Do(r, ops[0]);
    if ops[0].TakeBatch? {
      BatchShape(r);
      TakenBounds(r);
      if p < Taken(r) {
        i := |First(r)| + p;
        assert ops[1..][..0] == [];
        NoRun(r1);
      } else {
        Remains(p, Taken(r));
        i := BoundedWaiting(r1, ops[1..], p - Taken(r));
        i := i + |out|;
      }
    } else {
      ScheduleShape(r, ops[0]);
      i := BoundedWaiting(r1, ops[1..], p);
    }
  }

  lemma NoRun(r: Ready)
    ensures Run(r, []) == (r, []) && Batches([]) == 0
  {
  }

  lemma TakenBounds(r: Ready)
    ensures |First(r)| <= 1 && Taken(r) <= |r.queue| && (Taken(r) < |r.queue| ==> |First(r)| + Taken(r) == BATCH)
  {
  }

  lemma BatchesHead(ops: seq<Op>)
    ensures ops == [] ==> Batches(ops) == 0
    ensures ops != [] ==> Batches(ops) == (if ops[0].TakeBatch? then 1 else 0) + Batches(ops[1..])
  {
  }

  lemma RunHead(r: Ready, ops: seq<Op>, k: nat)
    requires 0 < k <= |ops|
    ensures var (r1, out) := Do(r, ops[0]);
            && Run(r, ops[..k]).1 == out + Run(r1, ops[1..][..k - 1]).1
            && Batches(ops[..k]) == (if ops[0].TakeBatch? then 1 else 0) + Batches(ops[1..][..k - 1])
  {
    hide Do;
    assert ops[..k][0] == ops[0] && ops[..k][1..] == ops[1..][..k - 1];
  }

  lemma Remains(p: nat, taken: nat)
    requires 15 <= taken <= p
    ensures (p - taken) / 15 + 1 <= p / 15
  {
  }

  lemma ScheduleShape(r: Ready, op: Op)
    requires op.Schedule? && op.handle != 0 && NoNulls(r.queue)
    ensures Do(r, op).1 == [] && NoNulls(Do(r, op).0.queue) && r.queue <= Do(r, op).0.queue
  {
  }

  // --- In a ring of fixed capacity ----------------------------------------------------------

  /** `ScheduleIn` on a local ring of capacity `n` with 32-bit counters, full or not. */
  function ScheduleAt(r: Ready, h: Handle, n: nat): Ready
    requires n > 0
  {
    if r.runnext == 0 then r.(runnext := h) else r.(queue := Pushed(r.queue, n, h))
  }

  function DoAt(r: Ready, op: Op, n: nat): (Ready, seq<Handle>)
    requires n > 0
  {
    match op
    case Schedule(h) => (ScheduleAt(r, h, n), [])
    case TakeBatch => Batch(r, BATCH)
  }

  function RunAt(r: Ready, ops: seq<Op>, n: nat): (Ready, seq<Handle>)
    requires n > 0
    decreases |ops|
  {
    if ops == [] then (r, []) else
    var (r1, out) := DoAt(r, ops[0], n);
    var (r2, more) := RunAt(r1, ops[1..], n);
    (r2, out + more)
  }

  /** The push, if there is one, loses nothing: it overwrites only its own handle; where the counters
      meet there was nothing to lose. */
  predicate Lossless(r: Ready, op: Op, n: nat)
    requires n > 0
  {
    op.Schedule? && r.runnext != 0 ==>
      if |r.queue| + 1 < WRAP32
      then forall i :: 0 <= i < |r.queue| && i % n == |r.queue| % n ==> r.queue[i] == op.handle
      else op.handle == 0 && forall i :: 0 <= i < |r.queue| ==> r.queue[i] == 0
  }

  /** No push of the run meets a full ring. */
  predicate Roomy(r: Ready, ops: seq<Op>, n: nat)
    requires n > 0
    decreases |ops|
  {
    ops == []
    || ((ops[0].Schedule? && r.runnext != 0 ==> |r.queue| < n) && Roomy(DoAt(r, ops[0], n).0, ops[1..], n))
  }

  /** Replacing handles by `x` adds an `x` for each one that was different. */
  lemma {:induction false} Replaced(a: seq<Handle>, b: seq<Handle>, x: Handle)
    requires |a| == |b| && forall i :: 0 <= i < |a| ==> b[i] == x || b[i] == a[i]
    ensures multiset(b)[x] >= multiset(a)[x]
    ensures multiset(b)[x] == multiset(a)[x] ==> a == b
  {
    if a != [] {
      assert a == [a[0]] + a[1..] && b == [b[0]] + b[1..];
      Replaced(a[1..], b[1..], x);
    }
  }

  /** The null handles of a list, for lists of equal length. */
  lemma SameNulls(a: seq<Handle>, b: seq<Handle>)
    requires |a| == |b| && Real(a) == Real(b)
    ensures multiset(a)[0] == multiset(b)[0]
  {
    NullsAndReal(a);
    NullsAndReal(b);
  }

  lemma {:induction false} NullsAndReal(a: seq<Handle>)
    ensures multiset(a)[0] + |Real(a)| == |a|
  {
    if a != [] {
      assert a == [a[0]] + a[1..];
      RealSplit(a);
      NullsAndReal(a[1..]);
      hide Real;
    }
  }

  lemma {:induction false} AllNull(a: seq<Handle>)
    ensures Real(a) == multiset{} <==> forall i :: 0 <= i < |a| ==> a[i] == 0
  {
    if a != [] {
      RealSplit(a);
      AllNull(a[1..]);
      assert forall i :: 0 < i < |a| ==> a[i] == a[1..][i - 1];
      hide Real;
    }
  }

  lemma Cancel(a: multiset<Handle>, b: multiset<Handle>, c: multiset<Handle>)
    requires a + c == b + c
    ensures a == b
  {
    forall h ensures a[h] == b[h] {
      assert (a + c)[h] == (b + c)[h];
    }
  }

  /** Overwriting handles keeps all real handles exactly when it changes nothing. */
  lemma OverwriteKeeps(q: seq<Handle>, b: seq<Handle>, x: Handle)
    requires |b| == |q| && forall i :: 0 <= i < |q| ==> b[i] == x || b[i] == q[i]
    ensures Real(b) + Real([x]) == Real(q) + Real([x]) <==> b == q
  {
    if Real(b) + Real([x]) == Real(q) + Real([x]) {
      Cancel(Real(b), Real(q), Real([x]));
      SameNulls(q, b);
      if x != 0 { assert Real(b)[x] == multiset(b)[x] && Real(q)[x] == multiset(q)[x]; }
      Replaced(q, b, x);
    }
  }

  /** A push keeps all real handles exactly when it is lossless. */
  lemma PushKeeps(q: seq<Handle>, n: nat, x: Handle, r: Ready)
    requires n > 0 && |q| < WRAP32 && r.queue == q && r.runnext != 0
    ensures Real(Pushed(q, n, x)) == Real(q) + Real([x]) <==> Lossless(r, Schedule(x), n)
  {
    hide Real;
    if |q| + 1 < WRAP32 {
      var b := seq(|q|, i requires 0 <= i < |q| => if i % n == |q| % n then x else q[i]);
      assert Pushed(q, n, x) == b + [x];
      RealAppend(b, [x]);
      assert Lossless(r, Schedule(x), n) <==> b == q;
      OverwriteKeeps(q, b, x);
    } else {
      RealOne(x);
      AllNull(q);
    }
  }

  /** One operation on the ring keeps every real handle, held or returned, exactly when it is lossless. */
  lemma DoAtConserves(r: Ready, op: Op, n: nat)
    requires n > 0 && |r.queue| < WRAP32
    ensures var (r', out) := DoAt(r, op, n);
            && |r'.queue| < WRAP32
            && (Held(r) + Real(Scheduled([op])) == Held(r') + multiset(out) <==> Lossless(r, op, n))
  {
    hide Real, Held, Pushed, Pops;
    match op
    case TakeBatch =>
      DoConserves(r, op);
      BatchIs(r);
      PopsShrink(r.queue, BATCH - |First(r)|);
    case Schedule(h) =>
      assert Scheduled([op]) == [h];
      if r.runnext == 0 {
        DoConserves(r, op);
      } else {
        PushAtConserves(r, h, n);
      }
  }

  lemma PushAtConserves(r: Ready, h: Handle, n: nat)
    requires n > 0 && |r.queue| < WRAP32 && r.runnext != 0
    ensures var r' := ScheduleAt(r, h, n);
            && |r'.queue| < WRAP32
            && (Held(r) + Real([h]) == Held(r') + multiset{} <==> Lossless(r, Schedule(h), n))
  {
    hide Real, Held, Lossless, Pushed;
    HeldIs(r);
    HeldIs(ScheduleAt(r, h, n));
    PushKeeps(r.queue, n, h, r);
    Outer(multiset{r.runnext}, Real(r.queue), Real([h]), Real(Pushed(r.queue, n, h)));
    PushedLength(r.queue, n, h);
  }

  lemma PushedLength(q: seq<Handle>, n: nat, x: Handle)
    requires n > 0 && |q| < WRAP32
    ensures |Pushed(q, n, x)| < WRAP32
  {
  }

  lemma Outer(a: multiset<Handle>, b: multiset<Handle>, c: multiset<Handle>, d: multiset<Handle>)
    ensures (a + b) + c == (a + d) + multiset{} <==> d == b + c
  {
    assert (a + b) + c == (b + c) + a && (a + d) + multiset{} == d + a;
    if (a + b) + c == (a + d) + multiset{} { Cancel(b + c, d, a); }
  }

  lemma {:induction false} PopsShrink(queue: seq<Handle>, n: nat)
    ensures |Pops(queue, n).1| <= |queue|
    decreases n
  {
    if n > 0 && queue != [] && queue[0] != 0 { PopsShrink(queue[1..], n - 1); }
  }

  /** With room for every push the ring is the queue without bounds, for every capacity and across
      the wrap of the counters. */
  lemma {:induction false} RoomyIsUnbounded(r: Ready, ops: seq<Op>, n: nat)
    requires IsCapacity(n, WRAP32) && Roomy(r, ops, n)
    ensures RunAt(r, ops, n) == Run(r, ops)
    decreases |ops|
  {
    assert 0 < n < WRAP32;
    hide IsCapacity;
    if ops != [] {
      if ops[0].Schedule? && r.runnext != 0 { PushAppends(r.queue, n, ops[0].handle); }
      assert DoAt(r, ops[0], n) == Do(r, ops[0]);
      hide Do, DoAt;
      RoomyIsUnbounded(Do(r, ops[0]).0, ops[1..], n);
    }
  }

  /** Over every run on a ring in which no push meets a full ring: each non-null handle that is
      scheduled is returned in a batch exactly once or is still held. */
  lemma RingConserves(r: Ready, ops: seq<Op>, n: nat)
    requires IsCapacity(n, WRAP32) && Roomy(r, ops, n)
    ensures var (r', out) := RunAt(r, ops, n);
            Held(r) + Real(Scheduled(ops)) == Held(r') + multiset(out)
  {
    RoomyIsUnbounded(r, ops, n);
    RunConserves(r, ops);
  }

  lemma {:induction false} RoomyPrefix(r: Ready, ops: seq<Op>, n: nat, k: nat)
    requires n > 0 && Roomy(r, ops, n) && k <= |ops|
    ensures Roomy(r, ops[..k], n)
    decreases |ops|
  {
    hide DoAt;
    if k > 0 {
      assert ops[..k][0] == ops[0] && ops[..k][1..] == ops[1..][..k - 1];
      RoomyPrefix(DoAt(r, ops[0], n).0, ops[1..], n, k - 1);
    }
  }

  /** Bounded waiting on such a ring. */
  lemma RingBoundedWaiting(r: Ready, ops: seq<Op>, n: nat, p: nat) returns (i: nat)
    requires IsCapacity(n, WRAP32) && Roomy(r, ops, n)
    requires NoNulls(r.queue) && NullFree(ops) && p < |r.queue|
    requires p / 15 + 1 <= Batches(ops)
    ensures var k := Until(r, ops, p);
            var out := RunAt(r, ops[..k], n).1;
            && Batches(ops[..k]) <= p / 15 + 1
            && i < |out| && out[i] == r.queue[p]
            && i <= p + Batches(ops[..k])
  {
    var k := Until(r, ops, p);
    RoomyPrefix(r, ops, n, k);
    RoomyIsUnbounded(r, ops[..k], n);
    i := BoundedWaiting(r, ops, p);
  }

  // --- In place -------------------------------------------------------------------------------

  class ReadyQueue {
    var runnext: Handle
    const local: LocalQueue

    ghost predicate Valid()
      reads this, local
    {
      local.Valid()
    }

    ghost function State(): Ready
      requires Valid()
      reads this, local, local.buffer
    {
      Ready(runnext, local.Contents())
    }

    constructor (capacity: nat)
      requires IsCapacity(capacity, WRAP32)
      ensures Valid() && fresh(local) && fresh(local.buffer) && local.buffer.Length == capacity
      ensures State() == Ready(0, [])
    {
      runnext := 0;
      local := new LocalQueue(capacity);
    }

    /** With room in the local ring this is `ScheduleIn`; a full ring is overwritten. */
    method Schedule(h: Handle)
      requires Valid()
      modifies this, local, local.buffer
      ensures Valid()
      ensures State() == ScheduleAt(old(State()), h, local.buffer.Length)
      ensures old(runnext) == 0 || |old(State()).queue| < local.buffer.Length ==> State() == ScheduleIn(old(State()), h)
    {
      PushAppends(local.Contents(), local.buffer.Length, h);
      if runnext == 0 {
        runnext := h;
      } else {
        local.Push(h);
      }
    }

    /** Fills the front of `out` with the next batch. */
    method TryDequeueBatch(out: array<Handle>, max: nat) returns (count: nat)
      requires Valid() && 0 < max <= out.Length && out != local.buffer
      modifies this, local, out
      ensures Valid() && count <= max
      ensures State() == Batch(old(State()), max).0
      ensures out[..count] == Batch(old(State()), max).1
    {
      hide Pops, LocalQueue.Contents;
      count := 0;
      if runnext != 0 {
        out[0] := runnext;
        runnext := 0;
        count := 1;
      }
      ghost var r := old(State());
      ghost var done := First(r);
      while count < max
        invariant Valid() && runnext == 0 && count <= max && |done| == count
        invariant out[..count] == done
        invariant done + Pops(local.Contents(), max - count).0 == Batch(r, max).1
        invariant Pops(local.Contents(), max - count).1 == Batch(r, max).0.queue
        decreases max - count
      {
        ghost var queue := local.Contents();
        PopsUnfold(queue, max - count);
        var h := local.Pop();
        if h != 0 {
          out[count] := h;
          count := count + 1;
          done := done + [h];
        } else {
          break;
        }
      }
      if count == max { PopsUnfold(local.Contents(), 0); }
    }
  }

  lemma PopsUnfold(queue: seq<Handle>, n: nat)
    ensures n == 0 || queue == [] ==> Pops(queue, n) == ([], queue)
    ensures n > 0 && queue != [] && queue[0] == 0 ==> Pops(queue, n) == ([], queue[1..])
    ensures n > 0 && queue != [] && queue[0] != 0 ==>
      Pops(queue, n) == ([queue[0]] + Pops(queue[1..], n - 1).0, Pops(queue[1..], n - 1).1)
  {
  }
}
