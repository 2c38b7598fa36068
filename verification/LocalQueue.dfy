/**
 The scheduler's local ring of ready handles: a fixed buffer and two free-running 32-bit
 counters, with no test for a full ring on a push.
 */
module LocalQueues {
  import opened Basics
  import opened RingMath

  const WRAP32 := 0x1_0000_0000

  // --- The ring on values -----------------------------------------------------------------

  /** Number of handles between the two counters. */
  function Count(head: nat, tail: nat): nat { (tail - head) % WRAP32 }

  /** The slot of the handle that is `i` places behind the counter `head`. */
  function Slot(n: nat, head: nat, i: nat): (k: nat)
    requires n > 0
    ensures k < n
  {
    (head + i) % n
  }

  /** The handles a pop would return one after the other. */
  function Items(buffer: seq<Handle>, head: nat, tail: nat): seq<Handle>
    requires |buffer| > 0
  {
    seq(Count(head, tail), i requires 0 <= i < Count(head, tail) => buffer[Slot(|buffer|, head, i)])
  }

  lemma Position(n: nat, head: nat, tail: nat)
    requires IsCapacity(n, WRAP32) && head < WRAP32 && tail < WRAP32
    ensures tail % n == Slot(n, head, Count(head, tail))
  {
    var c := Count(head, tail);
    var m: nat :| Divides(n, m, WRAP32);
    if tail >= head {
      assert head + c == tail by { RemainderIs(tail - head, WRAP32, 0, tail - head); }
    } else {
      assert c == tail - head + WRAP32 by { RemainderIs(tail - head, WRAP32, -1, tail - head + WRAP32); }
      assert head + c == n * (m + tail / n) + tail % n by {
        assert n * (m + tail / n) == n * m + n * (tail / n);
      }
      RemainderIs(head + c, n, m + tail / n, tail % n);
    }
  }

  lemma CountNext(head: nat, tail: nat)
    requires head < WRAP32 && tail < WRAP32 && Count(head, tail) + 1 < WRAP32
    ensures Count(head, (tail + 1) % WRAP32) == Count(head, tail) + 1
  {
  }

  lemma CountPop(head: nat, tail: nat)
    requires head < WRAP32 && tail < WRAP32 && Count(head, tail) > 0
    ensures Count((head + 1) % WRAP32, tail) == Count(head, tail) - 1
  {
  }

  lemma NextPosition(n: nat, head: nat, i: nat)
    requires IsCapacity(n, WRAP32) && head < WRAP32
    ensures Slot(n, (head + 1) % WRAP32, i) == Slot(n, head, i + 1)
  {
    if head + 1 == WRAP32 {
      var m: nat :| Divides(n, m, WRAP32);
      assert head + (i + 1) == n * (m + i / n) + i % n by { assert n * (m + i / n) == n * m + n * (i / n); }
      RemainderIs(head + (i + 1), n, m + i / n, i % n);
    }
  }

  /** What a push makes of the queued handles `q` in a ring of capacity `n`: the slot written is that
      of every queued handle whose place agrees with |q| modulo n, and with 2^32 - 1 handles queued
      the counters meet and the ring reads as empty. */
  function Pushed(q: seq<Handle>, n: nat, x: Handle): seq<Handle>
    requires n > 0
  {
    if |q| + 1 == WRAP32 then []
    else seq(|q|, i requires 0 <= i < |q| => if i % n == |q| % n then x else q[i]) + [x]
  }

  lemma PushIs(buffer: seq<Handle>, head: nat, tail: nat, x: Handle)
    requires IsCapacity(|buffer|, WRAP32) && head < WRAP32 && tail < WRAP32
    ensures Items(buffer[tail % |buffer| := x], head, (tail + 1) % WRAP32)
         == Pushed(Items(buffer, head, tail), |buffer|, x)
  {
    var n, c := |buffer|, Count(head, tail);
    if c + 1 < WRAP32 {
      Position(n, head, tail);
      CountNext(head, tail);
      SlotsOf(n, head, c);
      hide Slot, Count, IsCapacity;
    } else {
      CountFull(head, tail);
      hide Slot, Count, IsCapacity;
    }
  }

  lemma SlotsOf(n: nat, head: nat, c: nat)
    requires n > 0
    ensures forall i: nat {:trigger Slot(n, head, i)} :: Slot(n, head, i) == Slot(n, head, c) <==> i % n == c % n
  {
    forall i: nat {:trigger Slot(n, head, i)}
      ensures Slot(n, head, i) == Slot(n, head, c) <==> i % n == c % n
    {
      SameSlotFrom(head, i, c, n);
    }
  }

  lemma CountFull(head: nat, tail: nat)
    requires head < WRAP32 && tail < WRAP32 && Count(head, tail) + 1 == WRAP32
    ensures Count(head, (tail + 1) % WRAP32) == 0
  {
  }

  /** A push appends exactly when nothing that is still queued is lost, in particular below capacity;
      at capacity the oldest handle is replaced by the new one. */
  lemma PushAppends(q: seq<Handle>, n: nat, x: Handle)
    requires IsCapacity(n, WRAP32) && |q| < WRAP32
    ensures Pushed(q, n, x) == q + [x] <==>
              |q| + 1 < WRAP32 && forall i :: 0 <= i < |q| && i % n == |q| % n ==> q[i] == x
    ensures |q| < n ==> Pushed(q, n, x) == q + [x]
    ensures |q| == n ==> Pushed(q, n, x) == [x] + q[1..] + [x]
  {
    var p := Pushed(q, n, x);
    hide IsCapacity;
    if |q| + 1 < WRAP32 {
      assert forall i :: 0 <= i < |q| ==> (q + [x])[i] == q[i];
      assert p == q + [x] <==> forall i :: 0 <= i < |q| ==> p[i] == q[i];
    }
    if |q| <= n { SmallPlaces(n, |q|); }
  }

  lemma SmallPlaces(n: nat, c: nat)
    requires c <= n && n > 0
    ensures forall i :: 0 <= i < c ==> (i % n == c % n <==> i == 0 && c == n)
  {
    if c == n { RemainderIs(n, n, 1, 0); }
  }

  lemma PopTakesFirst(buffer: seq<Handle>, head: nat, tail: nat)
    requires IsCapacity(|buffer|, WRAP32) && head < WRAP32 && tail < WRAP32 && Count(head, tail) > 0
    ensures var items := Items(buffer, head, tail);
            items[0] == buffer[head % |buffer|] && Items(buffer, (head + 1) % WRAP32, tail) == items[1..]
  {
    var n := |buffer|;
    CountPop(head, tail);
    var next := (head + 1) % WRAP32;
    forall i: nat {:trigger Slot(n, next, i)}
      ensures Slot(n, next, i) == Slot(n, head, i + 1)
    {
      NextPosition(n, head, i);
    }
    assert Slot(n, head, 0) == head % n;
    hide Slot, Count, IsCapacity;
  }

  // --- The ring in place --------------------------------------------------------------------

  class LocalQueue {
    const buffer: array<Handle>
    var head: nat
    var tail: nat

    ghost predicate Valid()
      reads this
    {
      IsCapacity(buffer.Length, WRAP32) && head < WRAP32 && tail < WRAP32
    }

    ghost function Contents(): seq<Handle>
      requires Valid()
      reads this, buffer
    {
      Items(buffer[..], head, tail)
    }

    constructor (capacity: nat)
      requires IsCapacity(capacity, WRAP32)
      ensures Valid() && fresh(buffer) && buffer.Length == capacity && Contents() == []
    {
      buffer := new Handle[capacity](_ => 0);
      head, tail := 0, 0;
    }

    method Push(item: Handle)
      requires Valid()
      modifies this`tail, buffer
      ensures Valid()
      ensures Contents() == Pushed(old(Contents()), buffer.Length, item)
    {
      ghost var b := buffer[..];
      buffer[tail % buffer.Length] := item;
      assert buffer[..] == b[tail % |b| := item];
      PushIs(b, head, tail, item);
      tail := (tail + 1) % WRAP32;
    }

    method Pop() returns (h: Handle)
      requires Valid()
      modifies this`head
      ensures Valid()
      ensures h == if old(Contents()) == [] then 0 else old(Contents())[0]
      ensures Contents() == if old(Contents()) == [] then [] else old(Contents())[1..]
    {
      CountZero(head, tail);
      if head == tail {
        return 0;
      }
      PopTakesFirst(buffer[..], head, tail);
      h := buffer[head % buffer.Length];
      head := (head + 1) % WRAP32;
    }
  }

  lemma CountZero(head: nat, tail: nat)
    requires head < WRAP32 && tail < WRAP32
    ensures Count(head, tail) == 0 <==> head == tail
  {
  }
}
