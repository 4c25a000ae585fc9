/** `wait_for_broadcast`: drain the broadcast queue for a match while frames keep arriving, then put
  * everything skipped back. */
module EventQueue {
  import opened Text
  import opened Queues
  import opened Transport

  /** One pass of the loop: what arrived before its take, and whether it ended (deadline or cancel). */
  datatype Round = Round(arrivals: seq<Frame>, expired: bool)

  /** The drain so far. `arrived` and `lost` are the frames the run received and dropped. */
  datatype Drain = Drain(
    queue: seq<Frame>, skipped: seq<Frame>, got: Option<Frame>, over: bool, arrived: seq<Frame>, lost: seq<Frame>)

  /** The frames a drop-oldest queue discards while taking in `xs`. */
  function Overflow(q: seq<Frame>, xs: seq<Frame>): seq<Frame> {
    (q + xs)[..|q + xs| - |LastN(EVENTS_QUEUE_MAX, q + xs)|]
  }

  function Arrive(d: Drain, xs: seq<Frame>): Drain {
    d.(queue := PutAll(EVENTS_QUEUE_MAX, d.queue, xs), arrived := d.arrived + xs,
       lost := d.lost + Overflow(d.queue, xs))
  }

  function Take(d: Drain, want: Frame -> bool): Drain
    requires d.queue != []
  {
    if want(d.queue[0]) then d.(queue := d.queue[1..], got := Some(d.queue[0]), over := true)
    else d.(queue := d.queue[1..], skipped := d.skipped + [d.queue[0]])
  }

  function Pass(d: Drain, r: Round, want: Frame -> bool): Drain {
    var d' := Arrive(d, r.arrivals);
    if r.expired then d'.(over := true) else if d'.queue == [] then d' else Take(d', want)
  }

  function Passes(d: Drain, rounds: seq<Round>, want: Frame -> bool): Drain
    decreases |rounds|
  {
    if d.over || rounds == [] then d else Passes(Pass(d, rounds[0], want), rounds[1..], want)
  }

  function Begun(q: seq<Frame>): Drain { Drain(q, [], None, false, [], []) }

  /** The queue after the skipped frames are put back. */
  function Requeued(d: Drain): seq<Frame> { PutAll(EVENTS_QUEUE_MAX, d.queue, d.skipped) }

  function LostInAll(d: Drain): seq<Frame> { d.lost + Overflow(d.queue, d.skipped) }

  function One(f: Option<Frame>): seq<Frame> { if f.Some? then [f.value] else [] }

  /** The whole wait, from queue `q`. */
  function Wait(q: seq<Frame>, rounds: seq<Round>, want: Frame -> bool): Drain { Passes(Begun(q), rounds, want) }

  // ---------- facts kept by every pass ----------

  /** Every frame is accounted for once. */
  ghost predicate Counted(q: seq<Frame>, d: Drain) {
    multiset(q) + multiset(d.arrived) ==
      multiset(d.queue) + multiset(d.skipped) + multiset(One(d.got)) + multiset(d.lost)
  }

  /** What is still queued is the newest part of everything seen; without losses all order is kept. */
  ghost predicate Ordered(q: seq<Frame>, d: Drain) {
    && |d.queue| <= |q + d.arrived| && d.queue == LastN(|d.queue|, q + d.arrived)
    && (d.lost == [] ==> q + d.arrived == d.skipped + One(d.got) + d.queue)
  }

  ghost predicate Faithful(q: seq<Frame>, d: Drain, want: Frame -> bool) {
    && |d.queue| <= EVENTS_QUEUE_MAX
    && (d.got.Some? ==> want(d.got.value) && d.over)
    && (forall f | f in d.skipped :: !want(f))
    && Counted(q, d) && Ordered(q, d)
  }

  lemma OverflowSplits(q: seq<Frame>, xs: seq<Frame>)
    requires |q| <= EVENTS_QUEUE_MAX
    ensures q + xs == Overflow(q, xs) + PutAll(EVENTS_QUEUE_MAX, q, xs)
    ensures |PutAll(EVENTS_QUEUE_MAX, q, xs)| <= EVENTS_QUEUE_MAX
    ensures PutAll(EVENTS_QUEUE_MAX, q, xs) == LastN(EVENTS_QUEUE_MAX, q + xs)
  {
    PutAllKeepsNewest(EVENTS_QUEUE_MAX, q, xs);
  }

  lemma OverflowCounts(q: seq<Frame>, xs: seq<Frame>)
    requires |q| <= EVENTS_QUEUE_MAX
    ensures multiset(q) + multiset(xs) == multiset(Overflow(q, xs)) + multiset(PutAll(EVENTS_QUEUE_MAX, q, xs))
  {
    OverflowSplits(q, xs);
    assert multiset(q + xs) == multiset(Overflow(q, xs) + PutAll(EVENTS_QUEUE_MAX, q, xs));
  }

  lemma Rebalance(before: multiset<Frame>, arrived: multiset<Frame>, queue: multiset<Frame>, kept: multiset<Frame>,
                  lost: multiset<Frame>, x: multiset<Frame>, over: multiset<Frame>, put: multiset<Frame>)
    requires before + arrived == queue + kept + lost && queue + x == over + put
    ensures before + (arrived + x) == put + kept + (lost + over)
  {
    forall f ensures (before + (arrived + x))[f] == (put + kept + (lost + over))[f] {
      assert (before + arrived)[f] == (queue + kept + lost)[f];
      assert (queue + x)[f] == (over + put)[f];
    }
  }

  lemma ArrivalsCounted(q: seq<Frame>, d: Drain, xs: seq<Frame>)
    requires Counted(q, d) && |d.queue| <= EVENTS_QUEUE_MAX
    ensures Counted(q, Arrive(d, xs))
  {
    OverflowCounts(d.queue, xs);
    var over, put := Overflow(d.queue, xs), PutAll(EVENTS_QUEUE_MAX, d.queue, xs);
    var kept := multiset(d.skipped) + multiset(One(d.got));
    assert multiset(q) + multiset(d.arrived) == multiset(d.queue) + kept + multiset(d.lost);
    Rebalance(multiset(q), multiset(d.arrived), multiset(d.queue), kept, multiset(d.lost),
              multiset(xs), multiset(over), multiset(put));
    assert multiset(d.arrived + xs) == multiset(d.arrived) + multiset(xs);
    assert multiset(d.lost + over) == multiset(d.lost) + multiset(over);
  }

  lemma AppendBoth(q: seq<Frame>, arrived: seq<Frame>, front: seq<Frame>, queue: seq<Frame>, xs: seq<Frame>)
    requires q + arrived == front + queue
    ensures q + (arrived + xs) == front + (queue + xs)
  {
    assert q + (arrived + xs) == (q + arrived) + xs;
    assert front + (queue + xs) == (front + queue) + xs;
  }

  lemma ArrivalsOrdered(q: seq<Frame>, d: Drain, xs: seq<Frame>)
    requires Ordered(q, d) && |d.queue| <= EVENTS_QUEUE_MAX
    ensures Ordered(q, Arrive(d, xs))
  {
    OverflowSplits(d.queue, xs);
    var over, put := Overflow(d.queue, xs), PutAll(EVENTS_QUEUE_MAX, d.queue, xs);
    var all := q + d.arrived;
    NewestPartGrows(all, d.queue, xs, over, put);
    assert q + (d.arrived + xs) == all + xs;
    if d.lost + over == [] {
      assert d.lost == [] && over == [];
      assert put == d.queue + xs;
      AppendBoth(q, d.arrived, d.skipped + One(d.got), d.queue, xs);
    }
  }

  lemma TakeCounted(q: seq<Frame>, d: Drain, want: Frame -> bool)
    requires Counted(q, d) && d.queue != [] && d.got.None?
    ensures Counted(q, Take(d, want))
  {
    var h, t := d.queue[0], d.queue[1..];
    assert d.queue == [h] + t;
    assert multiset(d.queue) == multiset{h} + multiset(t);
    assert multiset(d.skipped + [h]) == multiset(d.skipped) + multiset{h};
  }

  lemma TakeOrdered(q: seq<Frame>, d: Drain, want: Frame -> bool)
    requires Ordered(q, d) && d.queue != [] && d.got.None?
    ensures Ordered(q, Take(d, want))
  {
    var h, t := d.queue[0], d.queue[1..];
    assert d.queue + [] == [h] + t;
    NewestPartGrows(q + d.arrived, d.queue, [], [h], t);
    assert q + d.arrived + [] == q + d.arrived;
    assert d.skipped + [] + d.queue == d.skipped + [h] + t == (d.skipped + [h]) + [] + t;
  }

  lemma ArrivalsFaithful(q: seq<Frame>, d: Drain, xs: seq<Frame>, want: Frame -> bool)
    requires Faithful(q, d, want) && !d.over
    ensures Faithful(q, Arrive(d, xs), want)
  {
    OverflowSplits(d.queue, xs);
    ArrivalsCounted(q, d, xs);
    ArrivalsOrdered(q, d, xs);
  }

  lemma TakeFaithful(q: seq<Frame>, d: Drain, want: Frame -> bool)
    requires Faithful(q, d, want) && !d.over && d.queue != []
    ensures Faithful(q, Take(d, want), want)
  {
    TakeCounted(q, d, want);
    TakeOrdered(q, d, want);
  }

  lemma PassFaithful(q: seq<Frame>, d: Drain, r: Round, want: Frame -> bool)
    requires Faithful(q, d, want) && !d.over
    ensures Faithful(q, Pass(d, r, want), want)
  {
    ArrivalsFaithful(q, d, r.arrivals, want);
    var d' := Arrive(d, r.arrivals);
    if !r.expired && d'.queue != [] { TakeFaithful(q, d', want); }
  }

  lemma {:induction false} PassesFaithful(q: seq<Frame>, d: Drain, rounds: seq<Round>, want: Frame -> bool)
    requires Faithful(q, d, want)
    ensures Faithful(q, Passes(d, rounds, want), want)
    decreases |rounds|
  {
    if !d.over && rounds != [] {
      PassFaithful(q, d, rounds[0], want);
      PassesFaithful(q, Pass(d, rounds[0], want), rounds[1..], want);
    }
  }

  // ---------- main results ----------

  /** Nothing is duplicated or vanishes: before + arrivals = after + returned + dropped, and the
    * queue stays within its bound. */
  lemma WaitConserves(q: seq<Frame>, rounds: seq<Round>, want: Frame -> bool)
    requires |q| <= EVENTS_QUEUE_MAX
    ensures var d := Wait(q, rounds, want);
      && |Requeued(d)| <= EVENTS_QUEUE_MAX
      && multiset(q) + multiset(d.arrived) == multiset(Requeued(d)) + multiset(One(d.got)) + multiset(LostInAll(d))
  {
    PassesFaithful(q, Begun(q), rounds, want);
    var d := Wait(q, rounds, want);
    OverflowSplits(d.queue, d.skipped);
    OverflowCounts(d.queue, d.skipped);
    assert multiset(LostInAll(d)) == multiset(d.lost) + multiset(Overflow(d.queue, d.skipped));
  }

  /** The first match in taking order is returned, and while nothing overflows the call is a
    * rotation: the skipped frames, none of which matches, go behind whatever is still queued. */
  lemma WaitRotates(q: seq<Frame>, rounds: seq<Round>, want: Frame -> bool)
    requires |q| <= EVENTS_QUEUE_MAX
    ensures var d := Wait(q, rounds, want);
      && (d.got.Some? ==> want(d.got.value)) && (forall f | f in d.skipped :: !want(f))
      && d.queue == LastN(|d.queue|, q + d.arrived)
      && Requeued(d) == LastN(EVENTS_QUEUE_MAX, d.queue + d.skipped)
      && (LostInAll(d) == [] ==>
          q + d.arrived == d.skipped + One(d.got) + d.queue && Requeued(d) == d.queue + d.skipped)
  {
    PassesFaithful(q, Begun(q), rounds, want);
    var d := Wait(q, rounds, want);
    OverflowSplits(d.queue, d.skipped);
  }

  lemma {:induction false} QuietPasses(d: Drain, rounds: seq<Round>, want: Frame -> bool)
    requires forall i | 0 <= i < |rounds| :: rounds[i].arrivals == []
    requires |d.queue| <= EVENTS_QUEUE_MAX
    ensures Passes(d, rounds, want).arrived == d.arrived && Passes(d, rounds, want).lost == d.lost
    decreases |rounds|
  {
    if !d.over && rounds != [] {
      assert Overflow(d.queue, []) == [] by { assert d.queue + [] == d.queue; }
      assert Pass(d, rounds[0], want).arrived == d.arrived;
      QuietPasses(Pass(d, rounds[0], want), rounds[1..], want);
    }
  }

  lemma RotateExactly(q: seq<Frame>, skipped: seq<Frame>, queue: seq<Frame>)
    requires |q| <= EVENTS_QUEUE_MAX && q == skipped + queue
    ensures Overflow(queue, skipped) == []
    ensures PutAll(EVENTS_QUEUE_MAX, queue, skipped) == q[|skipped|..] + q[..|skipped|]
  {
    OverflowSplits(queue, skipped);
    assert |queue + skipped| == |q|;
  }

  /** A wait that times out with no arrivals consumes nothing: the queue is rotated by the frames it
    * looked at, and unchanged if it looked at all of them. */
  lemma TimeoutConsumesNothing(q: seq<Frame>, rounds: seq<Round>, want: Frame -> bool)
    requires |q| <= EVENTS_QUEUE_MAX && forall i | 0 <= i < |rounds| :: rounds[i].arrivals == []
    requires Wait(q, rounds, want).got.None?
    ensures var d := Wait(q, rounds, want);
      && LostInAll(d) == []
      && |d.skipped| <= |q| && Requeued(d) == q[|d.skipped|..] + q[..|d.skipped|]
      && (d.queue == [] ==> Requeued(d) == q)
  {
    QuietPasses(Begun(q), rounds, want);
    PassesFaithful(q, Begun(q), rounds, want);
    var d := Wait(q, rounds, want);
    assert q + d.arrived == q;
    assert d.skipped + One(d.got) == d.skipped;
    RotateExactly(q, d.skipped, d.queue);
  }

  /** What was lost stays lost. */
  lemma {:induction false} LostGrows(d: Drain, rounds: seq<Round>, want: Frame -> bool)
    ensures d.lost <= Passes(d, rounds, want).lost
    decreases |rounds|
  {
    if !d.over && rounds != [] { LostGrows(Pass(d, rounds[0], want), rounds[1..], want); }
  }

  /** A pass that loses nothing puts what arrived behind the queue, then takes the head. */
  lemma LosslessPass(d: Drain, r: Round, want: Frame -> bool)
    requires |d.queue| <= EVENTS_QUEUE_MAX && d.queue != [] && !r.expired && Pass(d, r, want).lost == d.lost
    ensures Pass(d, r, want) == Take(d.(queue := d.queue + r.arrivals, arrived := d.arrived + r.arrivals), want)
    ensures |d.queue + r.arrivals| <= EVENTS_QUEUE_MAX
  {
    OverflowSplits(d.queue, r.arrivals);
    assert Pass(d, r, want).lost == d.lost + Overflow(d.queue, r.arrivals);
    assert d.lost + [] == d.lost;
  }

  /** One such pass takes the first match, or moves it one place forward. */
  lemma PassNearer(d: Drain, r: Round, want: Frame -> bool, k: nat)
    requires !d.over && |d.queue| <= EVENTS_QUEUE_MAX && k < |d.queue| && !r.expired
    requires want(d.queue[k]) && forall i | 0 <= i < k :: !want(d.queue[i])
    requires Pass(d, r, want).lost == d.lost
    ensures var d' := Pass(d, r, want);
      if k == 0 then d'.over && d'.got == Some(d.queue[0]) && d'.skipped == d.skipped
      else
        && !d'.over && |d'.queue| <= EVENTS_QUEUE_MAX && k - 1 < |d'.queue| && d'.queue[k - 1] == d.queue[k]
        && (forall i | 0 <= i < k - 1 :: !want(d'.queue[i]))
        && d'.skipped + d'.queue[..k - 1] == d.skipped + d.queue[..k]
  {
    LosslessPass(d, r, want);
    var all := d.queue + r.arrivals;
    assert forall i | 0 <= i < |d.queue| :: all[i] == d.queue[i];
    if k > 0 {
      var d' := Pass(d, r, want);
      assert d'.queue == all[1..] && d'.skipped == d.skipped + [d.queue[0]];
      assert d.queue[..k] == [d.queue[0]] + d'.queue[..k - 1];
    }
  }

  /** The first match at place `k` of the queue is taken within `k + 1` passes, whatever arrives meanwhile,
    * unless frames are lost. */
  lemma {:induction false} PassesFind(d: Drain, rounds: seq<Round>, want: Frame -> bool, k: nat)
    requires !d.over && |d.queue| <= EVENTS_QUEUE_MAX && k < |d.queue| && k < |rounds| && d.lost == []
    requires want(d.queue[k]) && forall i | 0 <= i < k :: !want(d.queue[i])
    requires forall i | 0 <= i <= k :: !rounds[i].expired
    requires Passes(d, rounds, want).lost == []
    ensures Passes(d, rounds, want).got == Some(d.queue[k])
    ensures Passes(d, rounds, want).skipped == d.skipped + d.queue[..k]
    decreases k
  {
    var d' := Pass(d, rounds[0], want);
    LostGrows(d', rounds[1..], want);
    assert d.lost <= d'.lost;
    PassNearer(d, rounds[0], want, k);
    if k > 0 { PassesFind(d', rounds[1..], want, k - 1); }
  }

  lemma FoundSplit(q: seq<Frame>, arrived: seq<Frame>, queue: seq<Frame>, k: nat)
    requires k < |q| && q + arrived == q[..k] + [q[k]] + queue
    ensures queue == q[k + 1..] + arrived
  {
    assert q == q[..k] + [q[k]] + q[k + 1..];
    assert queue == (q + arrived)[k + 1..];
  }

  lemma FoundRequeued(q: seq<Frame>, d: Drain, k: nat)
    requires k < |q| && |d.queue| <= EVENTS_QUEUE_MAX && Ordered(q, d) && d.lost == []
    requires d.got == Some(q[k]) && d.skipped == q[..k]
    ensures Requeued(d) == LastN(EVENTS_QUEUE_MAX, q[k + 1..] + d.arrived + q[..k])
  {
    FoundSplit(q, d.arrived, d.queue, k);
    PutAllKeepsNewest(EVENTS_QUEUE_MAX, d.queue, d.skipped);
  }

  lemma WaitFinds(q: seq<Frame>, rounds: seq<Round>, want: Frame -> bool, k: nat)
    requires |q| <= EVENTS_QUEUE_MAX && k < |q| && k < |rounds|
    requires want(q[k]) && forall i | 0 <= i < k :: !want(q[i])
    requires forall i | 0 <= i <= k :: !rounds[i].expired
    requires Wait(q, rounds, want).lost == []
    ensures Wait(q, rounds, want).got == Some(q[k]) && Wait(q, rounds, want).skipped == q[..k]
  {
    PassesFind(Begun(q), rounds, want, k);
    assert [] + q[..k] == q[..k];
  }

  lemma WaitOrdered(q: seq<Frame>, rounds: seq<Round>, want: Frame -> bool)
    requires |q| <= EVENTS_QUEUE_MAX
    ensures var d := Wait(q, rounds, want); |d.queue| <= EVENTS_QUEUE_MAX && Ordered(q, d)
  {
    PassesFaithful(q, Begun(q), rounds, want);
  }

  function Total(rounds: seq<Round>): nat {
    if rounds == [] then 0 else |rounds[0].arrivals| + Total(rounds[1..])
  }

  /** Nothing is lost as long as all that arrives fits beside what was queued. */
  lemma {:induction false} RoomMeansNoLoss(d: Drain, rounds: seq<Round>, want: Frame -> bool)
    requires d.lost == [] && |d.queue| + Total(rounds) <= EVENTS_QUEUE_MAX
    ensures Passes(d, rounds, want).lost == []
    decreases |rounds|
  {
    if !d.over && rounds != [] {
      OverflowSplits(d.queue, rounds[0].arrivals);
      RoomMeansNoLoss(Pass(d, rounds[0], want), rounds[1..], want);
    }
  }

  /** A match already queued is found, the earliest one, while frames keep arriving: given the passes to
    * reach it, it is returned unless the queue overflows meanwhile. Then everything before it goes behind
    * everything after it and everything that arrived. */
  lemma WaitFindsEarliest(q: seq<Frame>, rounds: seq<Round>, want: Frame -> bool, k: nat)
    requires |q| <= EVENTS_QUEUE_MAX && k < |q| && k < |rounds|
    requires want(q[k]) && forall i | 0 <= i < k :: !want(q[i])
    requires forall i | 0 <= i <= k :: !rounds[i].expired
    ensures var d := Wait(q, rounds, want);
      d.lost == [] ==>
        && d.got == Some(q[k])
        && Requeued(d) == LastN(EVENTS_QUEUE_MAX, q[k + 1..] + d.arrived + q[..k])
    ensures |q| + Total(rounds) <= EVENTS_QUEUE_MAX ==> Wait(q, rounds, want).lost == []
  {
    var d := Wait(q, rounds, want);
    if |q| + Total(rounds) <= EVENTS_QUEUE_MAX { RoomMeansNoLoss(Begun(q), rounds, want); }
    if d.lost == [] {
      WaitFinds(q, rounds, want, k);
      WaitOrdered(q, rounds, want);
      FoundRequeued(q, d, k);
    }
  }
}
