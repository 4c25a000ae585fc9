/** The token-bucket limiter over exact reals, its lazily pruned table, and what pruning may not change. */
module Limiter {
  import opened Text

  datatype Key = Key(session: string, tool: string)

  datatype Bucket = Bucket(tokens: real, last: real)

  datatype State = State(buckets: map<Key, Bucket>, lastPrune: real)

  const PRUNE_THRESHOLD: nat := 100
  const PRUNE_INTERVAL: real := 60.0
  const BUCKET_TTL: real := 3600.0

  function Min(x: real, y: real): real { if x <= y then x else y }

  /** Tokens that flow in over `dt` seconds. */
  function Refill(rate: real, dt: real): real { dt * rate / 60.0 }

  /** Tokens in a bucket at time `now`; a key without a bucket starts full. */
  function Level(rate: real, b: Option<Bucket>, now: real): real {
    match b
    case None => Min(rate, rate)
    case Some(b) => Min(rate, b.tokens + Refill(rate, now - b.last))
  }

  function Lookup(buckets: map<Key, Bucket>, key: Key): Option<Bucket> {
    if key in buckets then Some(buckets[key]) else None
  }

  predicate Stale(b: Bucket, now: real) { now - b.last >= BUCKET_TTL }

  function Prune(s: State, now: real, keep: Key): State {
    if |s.buckets| <= PRUNE_THRESHOLD || now - s.lastPrune < PRUNE_INTERVAL then s
    else State(map k | k in s.buckets && (k == keep || !Stale(s.buckets[k], now)) :: s.buckets[k], now)
  }

  /** A request for `key` against a table: is it granted, and the table afterwards. */
  function Spend(rate: real, buckets: map<Key, Bucket>, key: Key, now: real): (map<Key, Bucket>, bool) {
    var tokens := Level(rate, Lookup(buckets, key), now);
    if tokens < 1.0 then (buckets, false) else (buckets[key := Bucket(tokens - 1.0, now)], true)
  }

  function Acquire(rate: real, s: State, key: Key, now: real): (State, bool) {
    if rate <= 0.0 then (s, true)
    else
      var p := Prune(s, now, key);
      var (buckets, ok) := Spend(rate, p.buckets, key, now);
      (p.(buckets := buckets), ok)
  }

  // ---------- runs ----------

  datatype Request = Request(key: Key, at: real)

  function Run(rate: real, s: State, reqs: seq<Request>): seq<bool>
    decreases |reqs|
  {
    if reqs == [] then []
    else var (s', ok) := Acquire(rate, s, reqs[0].key, reqs[0].at); [ok] + Run(rate, s', reqs[1..])
  }

  /** The reference: one table that is never pruned. */
  function RunUnpruned(rate: real, buckets: map<Key, Bucket>, reqs: seq<Request>): seq<bool>
    decreases |reqs|
  {
    if reqs == [] then []
    else
      var (b', ok) := if rate <= 0.0 then (buckets, true) else Spend(rate, buckets, reqs[0].key, reqs[0].at);
      [ok] + RunUnpruned(rate, b', reqs[1..])
  }

  /** The reference for one key: a single bucket that hears of nothing else. */
  function RunAlone(rate: real, b: Option<Bucket>, times: seq<real>): seq<bool>
    decreases |times|
  {
    if times == [] then []
    else if rate <= 0.0 then [true] + RunAlone(rate, b, times[1..])
    else
      var tokens := Level(rate, b, times[0]);
      if tokens < 1.0 then [false] + RunAlone(rate, b, times[1..])
      else [true] + RunAlone(rate, Some(Bucket(tokens - 1.0, times[0])), times[1..])
  }

  predicate InOrder(reqs: seq<Request>, from: real) {
    && (forall i | 0 <= i < |reqs| :: from <= reqs[i].at)
    && (forall i, j | 0 <= i < j < |reqs| :: reqs[i].at <= reqs[j].at)
  }

  /** Stored tokens stay within [0, rate] and no bucket is dated in the future. */
  predicate Sound(rate: real, buckets: map<Key, Bucket>, now: real) {
    forall k | k in buckets :: 0.0 <= buckets[k].tokens <= rate && buckets[k].last <= now
  }

  // ---------- arithmetic ----------

  lemma RefillGrows(rate: real, x: real, y: real)
    requires x <= y && rate > 0.0
    ensures Refill(rate, x) <= Refill(rate, y) && Refill(rate, 0.0) == 0.0
  {
    assert (y - x) * rate >= 0.0;
  }

  lemma RefillAdds(rate: real, x: real, y: real)
    ensures Refill(rate, x + y) == Refill(rate, x) + Refill(rate, y)
  {
    assert (x + y) * rate == x * rate + y * rate;
  }

  lemma IdleBucketIsFull(rate: real, b: Bucket, now: real)
    requires rate > 0.0 && 0.0 <= b.tokens && Stale(b, now)
    ensures Level(rate, Some(b), now) == rate == Level(rate, None, now)
  {
    RefillGrows(rate, BUCKET_TTL, now - b.last);
    assert Refill(rate, BUCKET_TTL) == 60.0 * rate;
  }

  lemma LevelBounds(rate: real, b: Option<Bucket>, now: real)
    requires rate > 0.0 && (b.Some? ==> 0.0 <= b.value.tokens && b.value.last <= now)
    ensures 0.0 <= Level(rate, b, now) <= rate
  {
    if b.Some? { RefillGrows(rate, 0.0, now - b.value.last); }
  }

  // ---------- pruning is invisible ----------

  /** The pruned table is the unpruned one minus buckets that have been idle long enough to be full. */
  predicate Agree(rate: real, p: map<Key, Bucket>, u: map<Key, Bucket>, now: real) {
    && Sound(rate, u, now)
    && (forall k | k in p :: k in u && p[k] == u[k])
    && (forall k | k in u && k !in p :: Stale(u[k], now))
  }

  lemma PruneAgrees(rate: real, s: State, u: map<Key, Bucket>, before: real, now: real, keep: Key)
    requires Agree(rate, s.buckets, u, before) && before <= now
    ensures Agree(rate, Prune(s, now, keep).buckets, u, now)
  {}

  lemma SpendAgrees(rate: real, p: map<Key, Bucket>, u: map<Key, Bucket>, key: Key, now: real)
    requires rate > 0.0 && Agree(rate, p, u, now)
    ensures Spend(rate, p, key, now).1 == Spend(rate, u, key, now).1
    ensures Agree(rate, Spend(rate, p, key, now).0, Spend(rate, u, key, now).0, now)
  {
    if key in u && key !in p { IdleBucketIsFull(rate, u[key], now); }
    LevelBounds(rate, Lookup(u, key), now);
  }

  /** The limiter accepts and refuses exactly as a table that is never pruned, for every sequence of
    * requests at non-decreasing times. */
  lemma {:induction false} PruningInvisible(rate: real, s: State, u: map<Key, Bucket>, reqs: seq<Request>, now: real)
    requires Agree(rate, s.buckets, u, now) && InOrder(reqs, now)
    ensures Run(rate, s, reqs) == RunUnpruned(rate, u, reqs)
    decreases |reqs|
  {
    if reqs != [] {
      var r := reqs[0];
      if rate <= 0.0 {
        PruningInvisible(rate, s, u, reqs[1..], now);
      } else {
        PruneAgrees(rate, s, u, now, r.at, r.key);
        SpendAgrees(rate, Prune(s, r.at, r.key).buckets, u, r.key, r.at);
        PruningInvisible(rate, Acquire(rate, s, r.key, r.at).0, Spend(rate, u, r.key, r.at).0, reqs[1..], r.at);
      }
    }
  }

  // ---------- keys do not affect each other ----------

  function TimesOf(key: Key, reqs: seq<Request>): seq<real> {
    if reqs == [] then [] else (if reqs[0].key == key then [reqs[0].at] else []) + TimesOf(key, reqs[1..])
  }

  function OutcomesOf(key: Key, reqs: seq<Request>, outs: seq<bool>): seq<bool>
    requires |reqs| == |outs|
  {
    if reqs == [] then []
    else (if reqs[0].key == key then [outs[0]] else []) + OutcomesOf(key, reqs[1..], outs[1..])
  }

  lemma {:induction false} RunLength(rate: real, s: State, reqs: seq<Request>)
    ensures |Run(rate, s, reqs)| == |reqs|
    decreases |reqs|
  {
    if reqs != [] { RunLength(rate, Acquire(rate, s, reqs[0].key, reqs[0].at).0, reqs[1..]); }
  }

  lemma {:induction false} UnprunedIsolates(rate: real, u: map<Key, Bucket>, reqs: seq<Request>, key: Key)
    ensures |RunUnpruned(rate, u, reqs)| == |reqs|
    ensures OutcomesOf(key, reqs, RunUnpruned(rate, u, reqs)) == RunAlone(rate, Lookup(u, key), TimesOf(key, reqs))
    decreases |reqs|
  {
    if reqs != [] {
      var r := reqs[0];
      var u' := if rate <= 0.0 then u else Spend(rate, u, r.key, r.at).0;
      var outs := RunUnpruned(rate, u, reqs);
      UnprunedIsolates(rate, u', reqs[1..], key);
      assert outs[1..] == RunUnpruned(rate, u', reqs[1..]);
      var rest := TimesOf(key, reqs[1..]);
      if r.key == key {
        assert TimesOf(key, reqs) == [r.at] + rest && ([r.at] + rest)[1..] == rest;
      } else {
        assert TimesOf(key, reqs) == rest;
        assert Lookup(u', key) == Lookup(u, key);
      }
    }
  }

  /** What happens to the requests of one key is what a bucket of its own would do: traffic on other
    * keys, and the pruning it sets off, never changes it. */
  lemma KeysDoNotInterfere(rate: real, s: State, reqs: seq<Request>, now: real, key: Key)
    requires Sound(rate, s.buckets, now) && InOrder(reqs, now)
    ensures |Run(rate, s, reqs)| == |reqs|
    ensures OutcomesOf(key, reqs, Run(rate, s, reqs)) == RunAlone(rate, Lookup(s.buckets, key), TimesOf(key, reqs))
  {
    PruningInvisible(rate, s, s.buckets, reqs, now);
    UnprunedIsolates(rate, s.buckets, reqs, key);
    RunLength(rate, s, reqs);
  }

  // ---------- the rate bound ----------

  function Granted(outs: seq<bool>): nat {
    if outs == [] then 0 else (if outs[0] then 1 else 0) + Granted(outs[1..])
  }

  predicate Ascending(times: seq<real>, from: real, to: real) {
    && (forall i | 0 <= i < |times| :: from <= times[i] <= to)
    && (forall i, j | 0 <= i < j < |times| :: times[i] <= times[j])
  }

  lemma LevelGrows(rate: real, b: Option<Bucket>, t: real, t': real)
    requires rate > 0.0 && t <= t'
    ensures Level(rate, b, t') <= Level(rate, b, t) + Refill(rate, t' - t)
  {
    RefillGrows(rate, 0.0, t' - t);
    if b.Some? { RefillAdds(rate, t - b.value.last, t' - t); }
  }

  lemma {:induction false} AloneBound(rate: real, b: Option<Bucket>, times: seq<real>, t: real, to: real)
    requires rate > 0.0 && Ascending(times, t, to) && t <= to
    requires b.Some? ==> 0.0 <= b.value.tokens && b.value.last <= t
    ensures Granted(RunAlone(rate, b, times)) as real <= Level(rate, b, t) + Refill(rate, to - t)
    decreases |times|
  {
    LevelBounds(rate, b, t);
    RefillGrows(rate, 0.0, to - t);
    if times != [] {
      var t', outs := times[0], RunAlone(rate, b, times);
      LevelGrows(rate, b, t, t');
      LevelBounds(rate, b, t');
      RefillAdds(rate, t' - t, to - t');
      var tokens := Level(rate, b, t');
      if tokens < 1.0 {
        AloneBound(rate, b, times[1..], t', to);
        assert outs[1..] == RunAlone(rate, b, times[1..]);
      } else {
        var b' := Some(Bucket(tokens - 1.0, t'));
        AloneBound(rate, b', times[1..], t', to);
        assert outs[1..] == RunAlone(rate, b', times[1..]);
        RefillGrows(rate, 0.0, 0.0);
        assert Level(rate, b', t') == tokens - 1.0;
      }
    }
  }

  lemma {:induction false} TimesInOrder(key: Key, reqs: seq<Request>, from: real, to: real)
    requires InOrder(reqs, from) && forall i | 0 <= i < |reqs| :: reqs[i].at <= to
    ensures Ascending(TimesOf(key, reqs), from, to)
    decreases |reqs|
  {
    if reqs != [] { TimesInOrder(key, reqs[1..], reqs[0].at, to); }
  }

  /** Over any window of any run - any sound table at its start, any traffic inside it - one key is
    * granted at most `rate` requests plus `rate` a minute. */
  lemma RateBound(rate: real, s: State, reqs: seq<Request>, key: Key, t0: real, t1: real)
    requires rate > 0.0 && t0 <= t1 && Sound(rate, s.buckets, t0) && InOrder(reqs, t0)
    requires forall i | 0 <= i < |reqs| :: reqs[i].at <= t1
    ensures |Run(rate, s, reqs)| == |reqs|
    ensures Granted(OutcomesOf(key, reqs, Run(rate, s, reqs))) as real <= rate + (t1 - t0) * rate / 60.0
  {
    KeysDoNotInterfere(rate, s, reqs, t0, key);
    TimesInOrder(key, reqs, t0, t1);
    AloneBound(rate, Lookup(s.buckets, key), TimesOf(key, reqs), t0, t1);
    LevelBounds(rate, Lookup(s.buckets, key), t0);
  }

  // ---------- exactly which requests are granted ----------

  /** After the requests granted at the times `g` one more at `t` fits: every window that ends with it holds
    * at most `rate` requests plus `rate` a minute. */
  predicate Fits(rate: real, g: seq<real>, t: real) {
    rate >= 1.0 && forall i | 0 <= i < |g| :: (|g| - i + 1) as real <= rate + (t - g[i]) * rate / 60.0
  }

  /** The reference without buckets: grant whatever fits, remembering when something was granted. */
  function GrantWhatFits(rate: real, g: seq<real>, times: seq<real>): seq<bool>
    decreases |times|
  {
    if times == [] then []
    else if Fits(rate, g, times[0]) then [true] + GrantWhatFits(rate, g + [times[0]], times[1..])
    else [false] + GrantWhatFits(rate, g, times[1..])
  }

  /** What window `i` of the granted requests still allows at its end. */
  function Room(rate: real, g: seq<real>, i: nat): real
    requires i < |g|
  {
    rate + Refill(rate, g[|g| - 1] - g[i]) - (|g| - i) as real
  }

  /** The bucket after the requests granted at `g` holds what the tightest window still allows. */
  ghost predicate Remembers(rate: real, b: Option<Bucket>, g: seq<real>) {
    match b
    case None => g == []
    case Some(b) =>
      && g != [] && b.last == g[|g| - 1]
      && (forall i: nat | i < |g| :: b.tokens <= Room(rate, g, i))
      && exists i: nat :: i < |g| && b.tokens == Room(rate, g, i)
  }

  lemma RoomLater(rate: real, g: seq<real>, t: real, i: nat)
    requires i < |g|
    ensures Room(rate, g + [t], i) == Room(rate, g, i) + Refill(rate, t - g[|g| - 1]) - 1.0
    ensures Room(rate, g + [t], |g|) == rate - 1.0
  {
    RefillAdds(rate, g[|g| - 1] - g[i], t - g[|g| - 1]);
  }

  lemma LevelTellsFit(rate: real, b: Option<Bucket>, g: seq<real>, t: real)
    requires Remembers(rate, b, g)
    ensures Level(rate, b, t) >= 1.0 <==> Fits(rate, g, t)
  {
    if b.Some? {
      var tokens := b.value.tokens + Refill(rate, t - b.value.last);
      forall i: nat | i < |g|
        ensures Room(rate, g + [t], i) >= 0.0 <==> (|g| - i + 1) as real <= rate + (t - g[i]) * rate / 60.0
        ensures tokens - 1.0 <= Room(rate, g + [t], i)
      {
        RoomLater(rate, g, t, i);
      }
      var i: nat :| i < |g| && b.value.tokens == Room(rate, g, i);
      RoomLater(rate, g, t, i);
      assert tokens - 1.0 == Room(rate, g + [t], i);
    }
  }

  lemma SpendRemembers(rate: real, b: Option<Bucket>, g: seq<real>, t: real)
    requires Remembers(rate, b, g)
    ensures Remembers(rate, Some(Bucket(Level(rate, b, t) - 1.0, t)), g + [t])
  {
    var tokens, h := Level(rate, b, t) - 1.0, g + [t];
    assert Room(rate, h, |g|) == rate - 1.0 by { RefillOfNothing(rate); }
    if b.Some? {
      forall i: nat | i < |h| ensures tokens <= Room(rate, h, i) {
        if i < |g| { RoomLater(rate, g, t, i); }
      }
      var i: nat :| i < |g| && b.value.tokens == Room(rate, g, i);
      RoomLater(rate, g, t, i);
      assert tokens == Room(rate, h, i) || tokens == Room(rate, h, |g|);
    }
  }

  lemma RefillOfNothing(rate: real)
    ensures Refill(rate, 0.0) == 0.0
  {}

  lemma {:induction false} AloneGrantsWhatFits(rate: real, b: Option<Bucket>, g: seq<real>, times: seq<real>)
    requires rate > 0.0 && Remembers(rate, b, g)
    ensures RunAlone(rate, b, times) == GrantWhatFits(rate, g, times)
    decreases |times|
  {
    if times != [] {
      LevelTellsFit(rate, b, g, times[0]);
      if Fits(rate, g, times[0]) {
        SpendRemembers(rate, b, g, times[0]);
        AloneGrantsWhatFits(rate, Some(Bucket(Level(rate, b, times[0]) - 1.0, times[0])), g + [times[0]], times[1..]);
      } else {
        AloneGrantsWhatFits(rate, b, g, times[1..]);
      }
    }
  }

  /** Which requests of a key without a bucket are granted, in any run: exactly those that fit. */
  lemma GrantedExactly(rate: real, s: State, reqs: seq<Request>, now: real, key: Key)
    requires rate > 0.0 && Sound(rate, s.buckets, now) && InOrder(reqs, now) && key !in s.buckets
    ensures |Run(rate, s, reqs)| == |reqs|
    ensures OutcomesOf(key, reqs, Run(rate, s, reqs)) == GrantWhatFits(rate, [], TimesOf(key, reqs))
  {
    KeysDoNotInterfere(rate, s, reqs, now, key);
    AloneGrantsWhatFits(rate, None, [], TimesOf(key, reqs));
  }

  // ---------- two cases in which nothing is refused ----------

  predicate AllGranted(outs: seq<bool>) { forall i | 0 <= i < |outs| :: outs[i] }

  /** Every request fits after all earlier ones. */
  predicate AllFit(rate: real, times: seq<real>) { forall k | 0 <= k < |times| :: Fits(rate, times[..k], times[k]) }

  lemma {:induction false} FittingIsGranted(rate: real, g: seq<real>, times: seq<real>)
    requires AllFit(rate, g + times)
    ensures AllGranted(GrantWhatFits(rate, g, times)) && |GrantWhatFits(rate, g, times)| == |times|
    decreases |times|
  {
    if times != [] {
      var all := g + times;
      assert all[..|g|] == g && all[|g|] == times[0];
      assert (g + [times[0]]) + times[1..] == all;
      FittingIsGranted(rate, g + [times[0]], times[1..]);
    }
  }

  predicate NonDecreasing(times: seq<real>) { forall i, j | 0 <= i < j < |times| :: times[i] <= times[j] }

  lemma {:induction false} TimesFrom(key: Key, reqs: seq<Request>, from: real)
    requires InOrder(reqs, from)
    ensures NonDecreasing(TimesOf(key, reqs))
    ensures forall i | 0 <= i < |TimesOf(key, reqs)| :: from <= TimesOf(key, reqs)[i]
    decreases |reqs|
  {
    if reqs != [] { TimesFrom(key, reqs[1..], reqs[0].at); }
  }

  lemma BurstFits(rate: real, times: seq<real>)
    requires rate > 0.0 && NonDecreasing(times) && |times| as real <= rate
    ensures AllFit(rate, times)
  {
    forall i, k | 0 <= i < k < |times| ensures (times[k] - times[i]) * rate / 60.0 >= 0.0 {
      RefillGrows(rate, 0.0, times[k] - times[i]);
    }
  }

  lemma FittingRun(rate: real, s: State, reqs: seq<Request>, now: real, key: Key)
    requires rate > 0.0 && Sound(rate, s.buckets, now) && InOrder(reqs, now) && key !in s.buckets
    requires AllFit(rate, TimesOf(key, reqs))
    ensures |Run(rate, s, reqs)| == |reqs| && AllGranted(OutcomesOf(key, reqs, Run(rate, s, reqs)))
  {
    GrantedExactly(rate, s, reqs, now, key);
    assert [] + TimesOf(key, reqs) == TimesOf(key, reqs);
    FittingIsGranted(rate, [], TimesOf(key, reqs));
  }

  /** A new key is granted its first floor(rate) requests, however close together. */
  lemma BurstIsGranted(rate: real, s: State, reqs: seq<Request>, now: real, key: Key)
    requires rate > 0.0 && Sound(rate, s.buckets, now) && InOrder(reqs, now) && key !in s.buckets
    requires |TimesOf(key, reqs)| as real <= rate
    ensures |Run(rate, s, reqs)| == |reqs| && AllGranted(OutcomesOf(key, reqs, Run(rate, s, reqs)))
  {
    TimesFrom(key, reqs, now);
    BurstFits(rate, TimesOf(key, reqs));
    FittingRun(rate, s, reqs, now, key);
  }

  /** Neighbouring requests are at least the time apart in which one token refills. */
  predicate Paced(rate: real, times: seq<real>) {
    forall i, j | 0 <= i < |times| - 1 && j == i + 1 :: (times[j] - times[i]) * rate >= 60.0
  }

  lemma {:induction false} PacedApart(rate: real, times: seq<real>, i: nat, k: nat)
    requires Paced(rate, times) && i <= k < |times|
    ensures (times[k] - times[i]) * rate >= 60.0 * (k - i) as real
    decreases k
  {
    if i < k {
      var j := k - 1;
      PacedApart(rate, times, i, j);
      assert (times[k] - times[j]) * rate >= 60.0;
      assert (times[k] - times[i]) * rate == (times[k] - times[j]) * rate + (times[j] - times[i]) * rate;
    }
  }

  lemma PacedFits(rate: real, times: seq<real>)
    requires rate >= 1.0 && Paced(rate, times)
    ensures AllFit(rate, times)
  {
    forall i, k | 0 <= i < k < |times| ensures (times[k] - times[i]) * rate / 60.0 >= (k - i) as real {
      PacedApart(rate, times, i, k);
    }
  }

  /** Requests of a new key paced like that are never refused, if `rate` is at least 1. */
  lemma PacedIsGranted(rate: real, s: State, reqs: seq<Request>, now: real, key: Key)
    requires rate >= 1.0 && Sound(rate, s.buckets, now) && InOrder(reqs, now) && key !in s.buckets
    requires Paced(rate, TimesOf(key, reqs))
    ensures |Run(rate, s, reqs)| == |reqs| && AllGranted(OutcomesOf(key, reqs, Run(rate, s, reqs)))
  {
    PacedFits(rate, TimesOf(key, reqs));
    FittingRun(rate, s, reqs, now, key);
  }

  /** Every reachable table is sound. */
  lemma AcquireKeepsSound(rate: real, s: State, key: Key, before: real, now: real)
    requires rate > 0.0 && Sound(rate, s.buckets, before) && before <= now
    ensures Sound(rate, Acquire(rate, s, key, now).0.buckets, now)
  {
    LevelBounds(rate, Lookup(Prune(s, now, key).buckets, key), now);
  }

  /** Pruning happens only past 100 keys and a minute after the last time, and then drops exactly the buckets
    * other than the current one that were not used for an hour; no bucket is altered. */
  lemma PruneExactly(s: State, now: real, keep: Key)
    ensures var due, p := |s.buckets| > 100 && now - s.lastPrune >= 60.0, Prune(s, now, keep);
      && p.lastPrune == (if due then now else s.lastPrune)
      && (forall k :: k in p.buckets <==>
            k in s.buckets && (due ==> k == keep || now - s.buckets[k].last < 3600.0))
      && forall k | k in p.buckets :: p.buckets[k] == s.buckets[k]
  {}

  // ---------- the object ----------

  class TokenBucketLimiter {
    const rate: real
    var buckets: map<Key, Bucket>
    var lastPrune: real

    ghost function View(): State
      reads this
    {
      State(buckets, lastPrune)
    }

    constructor (callsPerMinute: real, now: real)
      ensures rate == callsPerMinute && View() == State(map[], now)
    {
      rate := callsPerMinute;
      buckets, lastPrune := map[], now;
    }

    /** True when granted; false when the source raises RateLimitExceeded. */
    method AcquireKey(key: Key, now: real) returns (granted: bool)
      modifies this
      ensures (View(), granted) == Acquire(rate, old(View()), key, now)
    {
      if rate <= 0.0 { return true; }
      PruneTable(now, key);
      var tokens, last := rate, now;
      if key in buckets { tokens, last := buckets[key].tokens, buckets[key].last; }
      tokens := Min(rate, tokens + Refill(rate, now - last));
      RefillGrows(rate, 0.0, 0.0);
      assert tokens == Level(rate, Lookup(buckets, key), now);
      if tokens < 1.0 { return false; }
      buckets := buckets[key := Bucket(tokens - 1.0, now)];
      granted := true;
    }

    method PruneTable(now: real, keep: Key)
      modifies this
      ensures View() == Prune(old(View()), now, keep)
    {
      if |buckets| <= PRUNE_THRESHOLD { return; }
      if now - lastPrune < PRUNE_INTERVAL { return; }
      lastPrune := now;
      var stale := set k | k in buckets && k != keep && Stale(buckets[k], now);
      var todo := stale;
      while todo != {}
        invariant todo <= stale && buckets == old(buckets) - (stale - todo)
        invariant lastPrune == now
      {
        var k :| k in todo;
        buckets := buckets - {k};
        todo := todo - {k};
      }
    }
  }
}
