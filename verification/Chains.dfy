/**
 Singly linked lists of awaiters.  `next[n]` is the link stored in awaiter `n`; an address is the
 number of an awaiter.
 */
module Chains {
  import opened Basics

  /** Following `next` from `p` gives exactly `list`. */
  ghost predicate Chain(next: seq<Option<nat>>, p: Option<nat>, list: seq<nat>)
    decreases |list|
  {
    if list == [] then p == None
    else p == Some(list[0]) && list[0] < |next| && Chain(next, next[list[0]], list[1..])
  }

  ghost predicate Distinct(list: seq<nat>) {
    forall i, j :: 0 <= i < j < |list| ==> list[i] != list[j]
  }

  /** A list is undisturbed by writes to links of other awaiters. */
  lemma {:induction false} ChainKept(next: seq<Option<nat>>, next': seq<Option<nat>>, p: Option<nat>, list: seq<nat>)
    requires Chain(next, p, list) && |next'| == |next|
    requires forall n :: n in list && n < |next| ==> next'[n] == next[n]
    ensures Chain(next', p, list)
    decreases |list|
  {
    if list != [] { ChainKept(next, next', next[list[0]], list[1..]); }
  }

  lemma ChainHead(next: seq<Option<nat>>, p: Option<nat>, list: seq<nat>)
    requires Chain(next, p, list)
    ensures p == None <==> list == []
    ensures p.Some? ==> p.value == list[0] < |next| && Chain(next, next[p.value], list[1..])
  {
  }

  lemma ChainCons(next: seq<Option<nat>>, a: nat, list: seq<nat>)
    requires a < |next| && Chain(next, next[a], list)
    ensures Chain(next, Some(a), [a] + list)
  {
    assert ([a] + list)[1..] == list;
  }

  lemma EmptyChain(next: seq<Option<nat>>)
    ensures Chain(next, None, [])
  {
  }
}
