/**
 The time wheel as the runtime keeps it: slot heads, intrusive doubly linked timer nodes,
 the current tick and the counter of active timers, all updated in place.

 `lists` and `slots` are ghost mirrors of the slot lists: `lists[k]` holds the nodes
 reachable from the head of slot `k`, and `slots[k]` their values.
 */
module TimeWheels {
  import opened Basics
  import opened WheelSlots
  import opened WheelTimeout
  import WheelRuns

  class TimerNode {
    var expiresAt: nat
    var handle: Handle
    var next: TimerNode?
    var prev: TimerNode?
    var headPtr: Option<nat>
    ghost var added: nat
    ghost var moves: nat

    constructor (expiresAt: nat, handle: Handle)
      ensures this.expiresAt == expiresAt && this.handle == handle
      ensures next == null && prev == null && headPtr == None
    {
      this.expiresAt := expiresAt;
      this.handle := handle;
      next, prev, headPtr := null, null, None;
    }

    ghost function View(): Timer
      reads this
    {
      Timer(handle, expiresAt, added, moves)
    }
  }

  function Just(n: TimerNode?): set<TimerNode> {
    if n == null then {} else {n}
  }

  ghost function At(list: seq<TimerNode>, i: int): TimerNode? {
    if 0 <= i < |list| then list[i] else null
  }

  ghost function Elements(list: seq<TimerNode>): set<TimerNode> {
    set n | n in list
  }

  lemma FirstElement(list: seq<TimerNode>)
    requires list != []
    ensures Elements(list) == {list[0]} + Elements(list[1..])
  {
    assert list == [list[0]] + list[1..];
  }

  lemma ChainTail(list: seq<TimerNode>, ts: seq<Timer>)
    requires Chain(list, ts) && list != []
    ensures |list| == |ts| && Chain(list[1..], ts[1..]) && list[0] !in list[1..]
    ensures list[0].next == At(list[1..], 0) && list[0].View() == ts[0]
  {
  }

  /** The `next` links run along the list and the nodes carry the values `ts`. */
  ghost predicate Chain(list: seq<TimerNode>, ts: seq<Timer>)
    reads list
  {
    && |list| == |ts|
    && (forall i {:trigger list[i].next} :: 0 <= i < |list| ==> list[i].next == At(list, i + 1))
    && (forall i {:trigger ts[i]} {:trigger list[i].View()} :: 0 <= i < |list| ==> list[i].View() == ts[i])
    && (forall i, j :: 0 <= i < j < |list| ==> list[i] != list[j])
  }

  /** Every node is linked back to its predecessor and to its slot. */
  ghost predicate BackLinked(list: seq<TimerNode>, k: nat)
    reads list
  {
    && (forall i {:trigger list[i].prev} :: 0 <= i < |list| ==> list[i].prev == At(list, i - 1))
    && (forall n :: n in list ==> n.headPtr == Some(k))
  }

  ghost predicate WellLinked(list: seq<TimerNode>, ts: seq<Timer>, k: nat)
    reads list
  {
    Chain(list, ts) && BackLinked(list, k)
  }

  /** Linking a new node in front of a list, as `add_timer` does. */
  lemma PushedFront(list: seq<TimerNode>, ts: seq<Timer>, k: nat, node: TimerNode)
    requires Chain(list, ts) && node !in list
    requires node.next == At(list, 0) && node.prev == null && node.headPtr == Some(k)
    requires forall i :: 0 <= i < |list| ==> list[i].headPtr == Some(k)
    requires forall i :: 0 < i < |list| ==> list[i].prev == list[i - 1]
    requires list != [] ==> list[0].prev == node
    ensures WellLinked([node] + list, [node.View()] + ts, k)
  {
  }

  /** Links `node` in front of the list of slot `k`. */
  method LinkFront(heads: array<TimerNode?>, k: nat, node: TimerNode, ghost list: seq<TimerNode>, ghost ts: seq<Timer>)
    requires k < heads.Length && heads[k] == At(list, 0) && WellLinked(list, ts, k) && node !in list
    modifies heads, node`next, node`prev, node`headPtr, Just(heads[k])`prev
    ensures heads[..] == old(heads[..])[k := node]
    ensures WellLinked([node] + list, [node.View()] + ts, k)
  {
    node.next := heads[k];
    if heads[k] != null {
      heads[k].prev := node;
    }
    node.prev := null;
    node.headPtr := Some(k);
    heads[k] := node;
    PushedFront(list, ts, k, node);
  }

  lemma WithoutMembers(list: seq<TimerNode>, i: nat)
    requires i < |list| && forall j, m :: 0 <= j < m < |list| ==> list[j] != list[m]
    ensures forall n :: n in Without(list, i) <==> n in list && n != list[i]
  {
    forall n | n in list && n != list[i] ensures n in Without(list, i) {
      var j :| 0 <= j < |list| && list[j] == n;
      assert n == Without(list, i)[if j < i then j else j - 1];
    }
  }

  lemma WithoutAt<T>(list: seq<T>, i: nat, j: nat)
    requires i < |list| && j < |list| - 1
    ensures |Without(list, i)| == |list| - 1
    ensures Without(list, i)[j] == if j < i then list[j] else list[j + 1]
  {
  }

  lemma WithoutDistinct(list: seq<TimerNode>, i: nat)
    requires i < |list| && forall j, m :: 0 <= j < m < |list| ==> list[j] != list[m]
    ensures forall j, m :: 0 <= j < m < |Without(list, i)| ==> Without(list, i)[j] != Without(list, i)[m]
  {
    var l := Without(list, i);
    hide Without;
    forall j, m | 0 <= j < m < |l|
      ensures l[j] != l[m]
    {
      WithoutAt(list, i, j);
      WithoutAt(list, i, m);
    }
  }

  /** Joining the neighbours of position `i` removes exactly that node from the list. */
  lemma SplicedForward(list: seq<TimerNode>, ts: seq<Timer>, i: nat)
    requires i < |list| == |ts|
    requires forall j :: 0 <= j < |list| && j != i ==> list[j].View() == ts[j]
    requires forall j :: 0 <= j < |list| && j != i && j + 1 != i ==> list[j].next == At(list, j + 1)
    requires i > 0 ==> list[i - 1].next == At(list, i + 1)
    requires forall j, m :: 0 <= j < m < |list| ==> list[j] != list[m]
    ensures Chain(Without(list, i), Without(ts, i))
  {
    var l := Without(list, i);
    WithoutDistinct(list, i);
    assert |l| == |list| - 1 && |Without(ts, i)| == |list| - 1;
    hide Without;
    forall j | 0 <= j < |l|
      ensures l[j].next == At(l, j + 1) && l[j].View() == Without(ts, i)[j]
    {
      WithoutAt(list, i, j);
      WithoutAt(ts, i, j);
      if j + 1 < |l| { WithoutAt(list, i, j + 1); }
    }
  }

  lemma SplicedBack(list: seq<TimerNode>, k: nat, i: nat)
    requires i < |list|
    requires forall j :: 0 <= j < |list| && j != i ==> list[j].headPtr == Some(k)
    requires forall j :: 0 <= j < |list| && j != i && j - 1 != i ==> list[j].prev == At(list, j - 1)
    requires i + 1 < |list| ==> list[i + 1].prev == At(list, i - 1)
    ensures BackLinked(Without(list, i), k)
  {
    var l := Without(list, i);
    forall j | 0 <= j < |l|
      ensures l[j].prev == At(l, j - 1) && l[j].headPtr == Some(k)
    {
      var m := if j < i then j else j + 1;
      assert l[j] == list[m];
    }
  }

  /** Takes `node`, at position `i`, out of the list of slot `k`. */
  method Unlink(heads: array<TimerNode?>, k: nat, node: TimerNode,
                ghost list: seq<TimerNode>, ghost ts: seq<Timer>, ghost i: nat)
    requires k < heads.Length && heads[k] == At(list, 0) && WellLinked(list, ts, k)
    requires i < |list| && list[i] == node
    modifies heads, node`headPtr, node`prev, node`next
    modifies Just(node.prev)`next, Just(node.next)`prev
    ensures heads[..] == old(heads[..])[k := At(Without(list, i), 0)]
    ensures WellLinked(Without(list, i), Without(ts, i), k)
    ensures node.headPtr == None && node.next == null && node.prev == null
  {
    assert node.prev == At(list, i - 1) && node.next == At(list, i + 1);
    if node.prev != null {
      node.prev.next := node.next;
    } else if heads[k] == node {
      heads[k] := node.next;
    }
    if node.next != null {
      node.next.prev := node.prev;
    }
    node.headPtr := None;
    node.prev := null;
    node.next := null;
    SplicedForward(list, ts, i);
    SplicedBack(list, k, i);
  }

  /** Passes the handles of a detached list to the scheduler in list order (time_wheel.cpp:81-89);
      without a scheduler on the calling thread they are dropped. */
  method FireAll(first: TimerNode?, onScheduler: bool, ghost list: seq<TimerNode>, ghost ts: seq<Timer>)
    returns (out: seq<Handle>)
    requires Chain(list, ts) && first == At(list, 0)
    modifies list`headPtr
    ensures out == if onScheduler then Handles(ts) else []
  {
    hide Chain, Handles;
    ChainLength(list, ts);
    HandlesAppend([], []);
    var curr := first;
    out := [];
    ghost var i := 0;
    while curr != null
      invariant i <= |list| == |ts| && Chain(list[i..], ts[i..]) && curr == At(list[i..], 0)
      invariant out == if onScheduler then Handles(ts[..i]) else []
      decreases |list| - i
    {
      ChainTail(list[i..], ts[i..]);
      assert list[i..][1..] == list[i + 1..] && ts[i..][1..] == ts[i + 1..];
      HandlesAppend(ts[..i], [ts[i]]);
      OneHandle(ts[i]);
      assert ts[..i + 1] == ts[..i] + [ts[i]];
      var next := curr.next;
      curr.headPtr := None;
      if onScheduler {
        out := out + [curr.handle];
      }
      curr := next;
      i := i + 1;
    }
    assert ts[..i] == ts;
  }

  lemma ChainLength(list: seq<TimerNode>, ts: seq<Timer>)
    requires Chain(list, ts)
    ensures |list| == |ts|
  {
  }

  class TimeWheel {
    const heads: array<TimerNode?>
    var currentTick: nat
    var activeTimers: nat
    ghost var lists: seq<seq<TimerNode>>
    ghost var slots: Slots
    ghost var nodes: set<TimerNode>

    ghost predicate SlotOk(k: nat)
      requires k < SLOTS && heads.Length == SLOTS && |lists| == SLOTS
      reads this`lists, this`slots, heads, lists[k]
    {
      heads[k] == At(lists[k], 0) && WellLinked(lists[k], slots[k], k)
    }

    ghost predicate Linked()
      reads this`lists, this`slots, this`nodes, heads, nodes
    {
      && heads.Length == SLOTS
      && Homed(lists, nodes)
      && (forall k :: 0 <= k < SLOTS ==> SlotOk(k))
    }

    /** The counter is only an upper bound: a cascade counts a timer again and firing does not
        count it off. */
    ghost predicate Valid()
      reads this`lists, this`slots, this`nodes, this`activeTimers, heads, nodes
    {
      |lists| == SLOTS && Linked() && |nodes| <= activeTimers
    }

    /** The wheel as a value. */
    ghost function State(): WheelRuns.Wheel
      reads this`slots, this`currentTick, this`activeTimers
    {
      WheelRuns.Wheel(slots, currentTick, activeTimers)
    }

    constructor ()
      ensures Valid() && fresh(heads)
      ensures slots == Empty() && nodes == {} && currentTick == 0 && activeTimers == 0
    {
      heads := new TimerNode?[SLOTS](_ => null);
      currentTick, activeTimers := 0, 0;
      lists := seq(SLOTS, _ => []);
      slots := Empty();
      nodes := {};
    }

    method AddTimer(node: TimerNode)
      requires Valid() && node !in nodes
      modifies this`activeTimers, this`lists, this`slots, this`nodes, heads
      modifies node`next, node`prev, node`headPtr, nodes`prev
      ensures Valid()
      ensures activeTimers == old(activeTimers) + 1
      ensures nodes == old(nodes) + {node}
      ensures slots == Insert(old(slots), node.View(), currentTick)
    {
      activeTimers := activeTimers + 1;
      var expires := node.expiresAt;
      var idx := (expires - currentTick) % TWO64;
      var k;
      if idx < 0x100 {
        k := expires % 256;
      } else if idx < 0x4000 {
        k := Base(2) + (expires / 0x100) % 64;
      } else if idx < 0x10_0000 {
        k := Base(3) + (expires / 0x4000) % 64;
      } else if idx < 0x400_0000 {
        k := Base(4) + (expires / 0x10_0000) % 64;
      } else {
        k := Base(5) + (expires / 0x400_0000) % 64;
      }
      assert k == SlotFor(expires, currentTick);
      Link(node, k);
    }

    method Link(node: TimerNode, k: nat)
      requires Linked() && node !in nodes && k < SLOTS
      modifies this`lists, this`slots, this`nodes, heads
      modifies node`next, node`prev, node`headPtr, nodes`prev
      ensures Linked()
      ensures nodes == old(nodes) + {node}
      ensures slots == old(slots)[k := [node.View()] + old(slots)[k]]
    {
      assert SlotOk(k);
      LinkFront(heads, k, node, lists[k], slots[k]);
      assert heads[k] == heads[..][k];
      forall j | 0 <= j < SLOTS && j != k
        ensures SlotOk(j)
      {
        assert old(SlotOk(j));
        assert node !in lists[j] && (lists[k] != [] ==> lists[k][0] !in lists[j]);
        assert heads[j] == heads[..][j];
      }
      Replace(k, [node] + lists[k], [node.View()] + slots[k], nodes + {node});
    }

    /** Removes a linked node, or does nothing for a node that is not linked. */
    method RemoveTimer(node: TimerNode) returns (ghost at: nat)
      requires Valid()
      requires node in nodes || (node.headPtr == None && node.prev == null && node.next == null)
      modifies this`activeTimers, this`lists, this`slots, this`nodes, heads
      modifies node`headPtr, node`prev, node`next, nodes`prev, nodes`next
      ensures Valid()
      ensures nodes == old(nodes) - {node} && node.headPtr == None
      ensures activeTimers == old(activeTimers) - if node in old(nodes) then 1 else 0
      ensures node !in old(nodes) ==> slots == old(slots)
      ensures node in old(nodes) ==>
        var k := old(node.headPtr.value);
        && at < |old(lists)[k]| == |old(slots)[k]| && old(lists)[k][at] == node
        && slots == old(slots)[k := Without(old(slots)[k], at)]
        && lists == old(lists)[k := Without(old(lists)[k], at)]
        && WheelRuns.Enabled(old(State()), WheelRuns.Remove(k, at))
        && State() == WheelRuns.Do(old(State()), WheelRuns.Remove(k, at)).0
    {
      at := 0;
      if node.headPtr.Some? {
        activeTimers := activeTimers - 1;
        var k := node.headPtr.value;
        at := UnlinkFrom(node, k);
      }
    }

    method UnlinkFrom(node: TimerNode, k: nat) returns (ghost at: nat)
      requires Linked() && node in nodes && node.headPtr == Some(k)
      modifies this`lists, this`slots, this`nodes, heads
      modifies node`headPtr, nodes`prev, nodes`next
      ensures Linked()
      ensures nodes == old(nodes) - {node} && node.headPtr == None
      ensures at < |old(lists)[k]| == |old(slots)[k]| && old(lists)[k][at] == node
      ensures slots == old(slots)[k := Without(old(slots)[k], at)]
      ensures lists == old(lists)[k := Without(old(lists)[k], at)]
    {
      assert SlotOk(k);
      at :| 0 <= at < |lists[k]| && lists[k][at] == node;
      ghost var p, q := node.prev, node.next;
      assert p == At(lists[k], at - 1) && q == At(lists[k], at + 1);
      forall j | 0 <= j < SLOTS && j != k
        ensures node !in lists[j] && p !in lists[j] && q !in lists[j]
      {
        assert SlotOk(j);
        assert p != null ==> p in lists[k];
        assert q != null ==> q in lists[k];
      }
      Unlink(heads, k, node, lists[k], slots[k], at);
      forall j | 0 <= j < SLOTS && j != k
        ensures SlotOk(j)
      {
        assert old(SlotOk(j));
        assert heads[j] == heads[..][j];
      }
      assert heads[k] == heads[..][k];
      StillHomed(lists, nodes, k, at);
      Replace(k, Without(lists[k], at), Without(slots[k], at), nodes - {node});
    }

    lemma StillHomed(ls: seq<seq<TimerNode>>, ns: set<TimerNode>, k: nat, at: nat)
      requires |ls| == SLOTS && k < SLOTS && at < |ls[k]|
      requires forall i, j :: 0 <= i < j < |ls[k]| ==> ls[k][i] != ls[k][j]
      requires forall j, n :: 0 <= j < SLOTS && n in ls[j] ==> n in ns
      requires forall j :: 0 <= j < SLOTS && j != k ==> ls[k][at] !in ls[j]
      requires forall n :: n in ns && n != ls[k][at] ==>
                 n.headPtr.Some? && n.headPtr.value < SLOTS && n in ls[n.headPtr.value]
      ensures Homed(ls[k := Without(ls[k], at)], ns - {ls[k][at]})
    {
      WithoutMembers(ls[k], at);
    }

    /** Every node of `ns` is in the list its `headPtr` names, and those lists hold nothing else. */
    ghost predicate Homed(ls: seq<seq<TimerNode>>, ns: set<TimerNode>)
      reads ns
    {
      && |ls| == SLOTS
      && (forall k, n :: 0 <= k < SLOTS && n in ls[k] ==> n in ns)
      && (forall n :: n in ns ==> n.headPtr.Some? && n.headPtr.value < SLOTS && n in ls[n.headPtr.value])
    }

    /** Records that slot `k` now holds `list`, the other slots being as before. */
    ghost method Replace(k: nat, list: seq<TimerNode>, ts: seq<Timer>, ns: set<TimerNode>)
      requires k < SLOTS && heads.Length == SLOTS && |lists| == SLOTS
      requires forall j :: 0 <= j < SLOTS && j != k ==> SlotOk(j)
      requires heads[k] == At(list, 0) && WellLinked(list, ts, k)
      requires Homed(lists[k := list], ns)
      modifies this`lists, this`slots, this`nodes
      ensures Linked()
      ensures nodes == ns && slots == old(slots)[k := ts] && lists == old(lists)[k := list]
    {
      lists := lists[k := list];
      slots := slots[k := ts];
      nodes := ns;
      forall j | 0 <= j < SLOTS ensures SlotOk(j) {
        assert j != k ==> old(SlotOk(j));
      }
    }

    /** Takes the whole list off slot `k`, leaving the links of its nodes as they are. */
    method Detach(k: nat) returns (first: TimerNode?)
      requires Valid() && k < SLOTS
      modifies this`lists, this`slots, this`nodes, heads
      ensures Valid()
      ensures Chain(old(lists)[k], old(slots)[k]) && first == At(old(lists)[k], 0)
      ensures slots == old(slots)[k := []] && nodes == old(nodes) - Elements(old(lists)[k])
      ensures Elements(old(lists)[k]) <= old(nodes) && |old(lists)[k]| == |old(slots)[k]|
    {
      assert SlotOk(k);
      first := heads[k];
      heads[k] := null;
      forall j | 0 <= j < SLOTS && j != k
        ensures SlotOk(j) && forall n :: n in lists[j] ==> n !in lists[k]
      {
        assert old(SlotOk(j));
      }
      Replace(k, [], [], nodes - Elements(lists[k]));
    }

    /** One round of the loop of `cascade`: re-adds the first node of a detached list and
        returns the next one, whose link was read before it was overwritten. */
    method AddAgain(curr: TimerNode, ghost list: seq<TimerNode>, ghost ts: seq<Timer>) returns (next: TimerNode?)
      requires Valid() && Chain(list, ts) && nodes !! Elements(list)
      requires list != [] && curr == list[0]
      modifies this`activeTimers, this`lists, this`slots, this`nodes, heads, curr, nodes`prev
      ensures Valid() && nodes == old(nodes) + {curr}
      ensures slots == Insert(old(slots), ts[0].Moved(), currentTick)
      ensures activeTimers == old(activeTimers) + 1
      ensures next == At(list[1..], 0) && Chain(list[1..], ts[1..]) && nodes !! Elements(list[1..])
      ensures nodes + Elements(list[1..]) == old(nodes) + Elements(list)
      ensures ReAdd(slots, ts[1..], currentTick) == ReAdd(old(slots), ts, currentTick)
    {
      hide Linked, Chain, Insert;
      FirstElement(list);
      ChainTail(list, ts);
      next := curr.next;
      curr.moves := curr.moves + 1;
      AddTimer(curr);
    }

    /** The loop of `cascade` over a detached list. */
    method AddAllAgain(first: TimerNode?, ghost list: seq<TimerNode>, ghost ts: seq<Timer>)
      requires Valid() && Chain(list, ts) && nodes !! Elements(list) && first == At(list, 0)
      modifies this`activeTimers, this`lists, this`slots, this`nodes, heads, nodes, list
      ensures Valid() && nodes == old(nodes) + Elements(list)
      ensures slots == ReAdd(old(slots), ts, currentTick)
      ensures activeTimers == old(activeTimers) + |list|
    {
      hide Linked;
      ghost var rest, left := list, ts;
      var curr := first;
      while curr != null
        invariant Valid() && Chain(rest, left) && curr == At(rest, 0) && nodes !! Elements(rest)
        invariant nodes + Elements(rest) == old(nodes) + Elements(list)
        invariant ReAdd(slots, left, currentTick) == ReAdd(old(slots), ts, currentTick)
        invariant activeTimers + |rest| == old(activeTimers) + |list|
        decreases |rest|
      {
        curr := AddAgain(curr, rest, left);
        rest, left := rest[1..], left[1..];
      }
    }

    /** Moves every timer of a slot of level `l` to where it belongs at the current tick. */
    method Cascade(l: Level)
      requires Valid()
      modifies this`activeTimers, this`lists, this`slots, this`nodes, heads, nodes
      ensures Valid() && nodes == old(nodes)
      ensures slots == WheelSlots.Cascade(old(slots), l, currentTick)
      ensures activeTimers == old(activeTimers) + |old(slots)[SlotAt(l, currentTick)]|
    {
      hide Linked, Chain, ReAdd;
      ghost var list, ts := lists[SlotAt(l, currentTick)], slots[SlotAt(l, currentTick)];
      var first := Detach(SlotAt(l, currentTick));
      AddAllAgain(first, list, ts);
    }

    /** The nested cascades at the head of a tick (time_wheel.cpp:60-77). */
    method CascadeLevels()
      requires Valid()
      modifies this`activeTimers, this`lists, this`slots, this`nodes, heads, nodes
      ensures Valid() && nodes == old(nodes)
      ensures slots == Cascades(old(slots), currentTick)
      ensures activeTimers == old(activeTimers) + Readds(old(slots), currentTick)
    {
      if currentTick % 256 == 0 && currentTick > 0 {
        var i2 := (currentTick / 0x100) % 64;
        Cascade(2);
        assert CascadesFrom(old(slots), 2, currentTick)
            == if i2 == 0 then CascadesFrom(slots, 3, currentTick) else slots;
        if i2 == 0 {
          ghost var s2 := slots;
          var i3 := (currentTick / 0x4000) % 64;
          Cascade(3);
          assert CascadesFrom(s2, 3, currentTick) == if i3 == 0 then CascadesFrom(slots, 4, currentTick) else slots;
          if i3 == 0 {
            ghost var s3 := slots;
            var i4 := (currentTick / 0x10_0000) % 64;
            Cascade(4);
            assert CascadesFrom(s3, 4, currentTick) == if i4 == 0 then CascadesFrom(slots, 5, currentTick) else slots;
            if i4 == 0 {
              Cascade(5);
            }
          }
        }
      }
    }

    /** Fires the timers of one `tv1_` slot. */
    method Drain(k: nat, onScheduler: bool) returns (out: seq<Handle>)
      requires Valid() && k < 256
      modifies this`lists, this`slots, this`nodes, heads, nodes`headPtr
      ensures Valid() && nodes <= old(nodes)
      ensures slots == old(slots)[k := []]
      ensures out == if onScheduler then Handles(old(slots)[k]) else []
    {
      hide Linked, Chain, Handles;
      ghost var list, ts := lists[k], slots[k];
      var curr := Detach(k);
      assert forall n :: n in list ==> n in Elements(list);
      out := FireAll(curr, onScheduler, list, ts);
    }

    /** `tick`: the wheel afterwards and the handles passed to the scheduler are those of `Ticks`. */
    method Tick(until: nat, onScheduler: bool) returns (out: seq<Handle>)
      requires Valid()
      modifies this, heads, nodes
      ensures Valid() && nodes <= old(nodes)
      ensures currentTick == if old(currentTick) < until then until else old(currentTick)
      ensures slots == Ticks(old(slots), old(currentTick), until).0
      ensures out == if onScheduler then Handles(Ticks(old(slots), old(currentTick), until).1) else []
      ensures activeTimers == old(activeTimers) + ReaddsUntil(old(slots), old(currentTick), until)
    {
      hide *;
      out := [];
      ghost var goal := Ticks(slots, currentTick, until);
      ghost var fired := [];
      HandlesAppend([], []);
      while currentTick < until
        invariant Valid() && nodes <= old(nodes)
        invariant currentTick <= until || currentTick == old(currentTick)
        invariant Ticks(slots, currentTick, until).0 == goal.0
        invariant fired + Ticks(slots, currentTick, until).1 == goal.1
        invariant out == if onScheduler then Handles(fired) else []
        invariant activeTimers + ReaddsUntil(slots, currentTick, until)
               == old(activeTimers) + ReaddsUntil(old(slots), old(currentTick), until)
        decreases until - currentTick
      {
        ghost var now := Step(slots, currentTick).1;
        TicksUnfold(slots, currentTick, until);
        HandlesAppend(fired, now);
        var handles := TickOnce(onScheduler);
        out := out + handles;
        fired := fired + now;
      }
      TicksDone(slots, currentTick, until);
      assert fired + [] == fired;
    }

    /** One round of the loop of `tick`. */
    method TickOnce(onScheduler: bool) returns (out: seq<Handle>)
      requires Valid()
      modifies this, heads, nodes
      ensures Valid() && nodes <= old(nodes)
      ensures currentTick == old(currentTick) + 1
      ensures slots == Step(old(slots), old(currentTick)).0
      ensures out == if onScheduler then Handles(Step(old(slots), old(currentTick)).1) else []
      ensures activeTimers == old(activeTimers) + Readds(old(slots), old(currentTick))
    {
      CascadeLevels();
      out := Drain(currentTick % 256, onScheduler);
      currentTick := currentTick + 1;
    }

    /** How long the event loop may block (time_wheel.cpp:94-105). */
    method NextTimeout(now: nat) returns (r: nat)
      requires Valid()
      ensures r == Timeout(slots, currentTick, activeTimers, now)
    {
      hide Chain, BackLinked, Homed;
      if activeTimers == 0 {
        return INFINITE;
      }
      for i := 0 to 256
        invariant FirstBusy(slots, currentTick, 0) == FirstBusy(slots, currentTick, i)
      {
        var index := (currentTick + i) % 256;
        assert SlotOk(index) && slots[Scan(currentTick, i)] == slots[index];
        HeadOf(lists[index], slots[index], index);
        if heads[index] != null {
          var expires := heads[index].expiresAt;
          return if expires > now then expires - now else 0;
        }
      }
      return 50;
    }
  }

  lemma HeadOf(list: seq<TimerNode>, ts: seq<Timer>, k: nat)
    requires WellLinked(list, ts, k)
    ensures At(list, 0) == null <==> ts == []
    ensures At(list, 0) != null ==> At(list, 0).expiresAt == ts[0].expires
  {
    if list != [] { assert list[0].View() == ts[0]; }
  }
}
