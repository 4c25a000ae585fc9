/** Bounded drop-oldest queues: `asyncio.Queue` behind `_put_event`, `_offer` and `deque(maxlen=n)`. */
module Queues {
  /** The newest `n` elements of `s`. */
  function LastN<T>(n: nat, s: seq<T>): (r: seq<T>)
  {
    if |s| <= n then s else s[|s| - n..]
  }

  /** One insertion: a full queue first drops its head. */
  function Put<T>(cap: nat, q: seq<T>, x: T): (r: seq<T>)
    requires cap > 0
  {
    (if |q| >= cap then q[1..] else q) + [x]
  }

  function PutAll<T>(cap: nat, q: seq<T>, xs: seq<T>): (r: seq<T>)
    requires cap > 0
    decreases |xs|
  {
    if xs == [] then q else PutAll(cap, Put(cap, q, xs[0]), xs[1..])
  }

  /** Any number of drop-oldest insertions leaves exactly the newest `cap` of everything offered. */
  lemma {:induction false} PutAllKeepsNewest<T>(cap: nat, q: seq<T>, xs: seq<T>)
    requires cap > 0 && |q| <= cap
    ensures PutAll(cap, q, xs) == LastN(cap, q + xs)
    decreases |xs|
  {
    if xs == [] {
      assert q + xs == q;
    } else {
      var q' := Put(cap, q, xs[0]);
      PutAllKeepsNewest(cap, q', xs[1..]);
      var all := q + xs;
      assert q' + xs[1..] == if |q| >= cap then all[1..] else all;
      assert LastN(cap, q' + xs[1..]) == LastN(cap, q + xs);
    }
  }

  lemma {:induction false} PutAllAppend<T>(cap: nat, q: seq<T>, xs: seq<T>, ys: seq<T>)
    requires cap > 0
    ensures PutAll(cap, q, xs + ys) == PutAll(cap, PutAll(cap, q, xs), ys)
    decreases |xs|
  {
    if xs == [] {
      assert xs + ys == ys;
    } else {
      assert (xs + ys)[0] == xs[0] && (xs + ys)[1..] == xs[1..] + ys;
      PutAllAppend(cap, Put(cap, q, xs[0]), xs[1..], ys);
    }
  }

  /** If `tail` is the newest part of `all`, then whatever remains of `tail + xs` after dropping from
    * the front is the newest part of `all + xs`. */
  lemma NewestPartGrows<T>(all: seq<T>, tail: seq<T>, xs: seq<T>, dropped: seq<T>, rest: seq<T>)
    requires |tail| <= |all| && tail == LastN(|tail|, all) && tail + xs == dropped + rest
    ensures |rest| <= |all + xs| && rest == LastN(|rest|, all + xs)
  {
    var front := all[..|all| - |tail|];
    assert all == front + tail;
    assert all + xs == front + (tail + xs) == (front + dropped) + rest;
  }
}
