/** `wait_for_state` on an ideal clock: every poll fits what is left of the caller's budget. */
module Polling {
  datatype Answer = Accepted | Rejected | ErrorReply

  /** What the debugger does with one poll: its answer and when it comes; if it comes too late, the
    * poll times out and the stepping probe takes `probe` seconds. */
  datatype Reply = Reply(delay: real, answer: Answer, probe: real)

  datatype Result = Satisfied | Failed | TimedOut

  const CALL_TIMEOUT: real := 5.0
  const POLL_FLOOR: real := 0.1
  const PROBE_TIMEOUT: real := 0.5

  function Max(x: real, y: real): real { if x >= y then x else y }

  function Min(x: real, y: real): real { if x <= y then x else y }

  /** The response timeout given to a poll sent after `elapsed` seconds. */
  function PollBudget(timeout: real, elapsed: real): real {
    Max(POLL_FLOOR, Min(CALL_TIMEOUT, timeout - elapsed))
  }

  predicate Timely(r: Reply) { r.delay >= 0.0 && 0.0 <= r.probe <= PROBE_TIMEOUT }

  predicate InTime(timeout: real, elapsed: real, r: Reply) { r.delay <= PollBudget(timeout, elapsed) }

  /** When the caller runs again after a poll sent at `elapsed`. */
  function PollEnds(timeout: real, elapsed: real, r: Reply): real {
    if InTime(timeout, elapsed, r) then elapsed + r.delay
    else elapsed + PollBudget(timeout, elapsed) + r.probe
  }

  /** The bound kept on the start of every poll. */
  predicate StartsInBudget(timeout: real, interval: real, elapsed: real) {
    elapsed == 0.0 || elapsed < timeout + interval
  }

  /** A poll that starts within budget ends within budget plus the poll floor, and plus the probe if
    * it times out. */
  lemma PollOverrun(timeout: real, interval: real, elapsed: real, r: Reply)
    requires timeout >= 0.0 && interval > 0.0 && elapsed >= 0.0 && StartsInBudget(timeout, interval, elapsed)
    requires Timely(r)
    ensures elapsed <= PollEnds(timeout, elapsed, r) < timeout + interval + POLL_FLOOR + PROBE_TIMEOUT
    ensures InTime(timeout, elapsed, r) ==> PollEnds(timeout, elapsed, r) < timeout + interval + POLL_FLOOR
  {}

  /** How many intervals still fit. */
  function Room(x: real, interval: real): nat
    requires interval > 0.0
  {
    if x < 0.0 then 0 else
      assert x / interval >= 0.0;
      (x / interval).Floor
  }

  lemma RoomShrinks(x: real, y: real, interval: real)
    requires interval > 0.0 && 0.0 <= y <= x - interval
    ensures Room(y, interval) < Room(x, interval)
  {
    assert x / interval - y / interval == (x - y) / interval >= interval / interval == 1.0;
    assert y / interval >= 0.0;
  }

  /** `n` times `x`. */
  function Times(n: nat, x: real): real { if n == 0 then 0.0 else Times(n - 1, x) + x }

  lemma {:induction false} TimesIsProduct(n: nat, x: real)
    ensures Times(n, x) == n as real * x
  {
    if n > 0 {
      TimesIsProduct(n - 1, x);
      assert n as real * x == (n - 1) as real * x + x;
    }
  }

  lemma {:induction false} TimesAdd(n: nat, x: real, y: real)
    ensures Times(n, x + y) == Times(n, x) + Times(n, y)
  {
    if n > 0 { TimesAdd(n - 1, x, y); }
  }

  lemma {:induction false} TimesGrow(m: nat, n: nat, x: real)
    requires m <= n && x >= 0.0
    ensures 0.0 <= Times(m, x) <= Times(n, x)
    decreases n
  {
    if m < n { TimesGrow(m, n - 1, x); } else if n > 0 { TimesGrow(0, n - 1, x); }
  }

  /** How a wait ends, when, and after how many polls. */
  datatype Ended = Ended(result: Result, elapsed: real, polls: nat)

  /** The wait from its poll number `i` on, sent at `elapsed`; poll `k` meets `replies(k)`. */
  function PollFrom(timeout: real, interval: real, replies: nat -> Reply, elapsed: real, i: nat): Ended
    requires timeout >= 0.0 && interval > 0.0 && elapsed >= 0.0 && forall k :: Timely(replies(k))
    decreases Room(timeout + 2.0 * interval - elapsed, interval)
  {
    var r := replies(i);
    assert Timely(r);
    var t := PollEnds(timeout, elapsed, r);
    if !InTime(timeout, elapsed, r) then Ended(TimedOut, t, i + 1)
    else match r.answer
      case ErrorReply => Ended(Failed, t, i + 1)
      case Accepted => Ended(Satisfied, t, i + 1)
      case Rejected =>
        if t >= timeout then Ended(TimedOut, t, i + 1)
        else
          RoomShrinks(timeout + 2.0 * interval - elapsed, timeout + 2.0 * interval - (t + interval), interval);
          PollFrom(timeout, interval, replies, t + interval, i + 1)
  }

  /** `wait_for_state` ends for every debugger, within the declared budget plus one interval, the poll
    * floor and one stepping probe; every poll but the last was answered and rejected. */
  method WaitForState(timeout: real, interval: real, replies: nat -> Reply)
    returns (result: Result, elapsed: real, polls: nat)
    requires timeout >= 0.0 && interval > 0.0 && forall i :: Timely(replies(i))
    ensures Ended(result, elapsed, polls) == PollFrom(timeout, interval, replies, 0.0, 0)
    ensures 0.0 <= elapsed < timeout + interval + 0.6
    ensures polls > 0 && (polls > 1 ==> (polls - 1) as real * interval < timeout + interval)
    ensures forall i | 0 <= i < polls - 1 :: replies(i).answer.Rejected?
    ensures result.Satisfied? ==> replies(polls - 1).answer.Accepted?
    ensures result.Failed? ==> replies(polls - 1).answer.ErrorReply?
    ensures result.TimedOut? ==> elapsed >= Min(timeout, CALL_TIMEOUT)
    ensures !result.TimedOut? ==> elapsed < timeout + interval + POLL_FLOOR
  {
    elapsed, polls := 0.0, 0;
    while true
      invariant elapsed >= 0.0 && StartsInBudget(timeout, interval, elapsed)
      invariant PollFrom(timeout, interval, replies, elapsed, polls) == PollFrom(timeout, interval, replies, 0.0, 0)
      invariant Times(polls, interval) <= elapsed && (polls > 0 ==> Times(polls, interval) < timeout + interval)
      invariant forall i | 0 <= i < polls :: replies(i).answer.Rejected?
      decreases Room(timeout + 2.0 * interval - elapsed, interval)
    {
      ghost var room := timeout + 2.0 * interval - elapsed;
      TimesIsProduct(polls, interval);
      var start, r := elapsed, replies(polls);
      PollOverrun(timeout, interval, start, r);
      polls := polls + 1;
      elapsed := PollEnds(timeout, start, r);
      if !InTime(timeout, start, r) { return TimedOut, elapsed, polls; }
      match r.answer
      case ErrorReply => return Failed, elapsed, polls;
      case Accepted => return Satisfied, elapsed, polls;
      case Rejected =>
      if elapsed >= timeout { return TimedOut, elapsed, polls; }
      elapsed := elapsed + interval;
      RoomShrinks(room, timeout + 2.0 * interval - elapsed, interval);
    }
  }

  // ---------- exactly how a wait ends ----------

  /** When poll `k` is sent if all polls before it are answered and rejected in time. */
  function SentAt(interval: real, replies: nat -> Reply, k: nat): real {
    if k == 0 then 0.0 else SentAt(interval, replies, k - 1) + replies(k - 1).delay + interval
  }

  /** Poll `k` is answered before its own timeout: what is left of the budget, between 0.1 s and 5 s. */
  predicate InTimeAt(timeout: real, interval: real, replies: nat -> Reply, k: nat) {
    var left := timeout - SentAt(interval, replies, k);
    replies(k).delay <= if left <= 0.1 then 0.1 else if left <= 5.0 then left else 5.0
  }

  /** Another poll follows: this one is answered in time, rejected, and the deadline has not passed. */
  predicate GoesOn(timeout: real, interval: real, replies: nat -> Reply, k: nat) {
    && InTimeAt(timeout, interval, replies, k) && replies(k).answer.Rejected?
    && SentAt(interval, replies, k) + replies(k).delay < timeout
  }

  lemma {:induction false} EndsFrom(timeout: real, interval: real, replies: nat -> Reply, i: nat) returns (n: nat)
    requires timeout >= 0.0 && interval > 0.0 && forall k :: Timely(replies(k))
    requires SentAt(interval, replies, i) >= 0.0
    ensures i <= n && !GoesOn(timeout, interval, replies, n)
    ensures forall k | i <= k < n :: GoesOn(timeout, interval, replies, k)
    ensures SentAt(interval, replies, n) >= 0.0
    ensures PollFrom(timeout, interval, replies, SentAt(interval, replies, i), i) ==
      PollFrom(timeout, interval, replies, SentAt(interval, replies, n), n)
    decreases Room(timeout + 2.0 * interval - SentAt(interval, replies, i), interval)
  {
    n := i;
    if GoesOn(timeout, interval, replies, i) {
      var sent, next := SentAt(interval, replies, i), SentAt(interval, replies, i + 1);
      assert Timely(replies(i));
      RoomShrinks(timeout + 2.0 * interval - sent, timeout + 2.0 * interval - next, interval);
      n := EndsFrom(timeout, interval, replies, i + 1);
    }
  }

  /** The last poll is the first that does not go on, and decides: satisfied if and only if it was answered in
    * time and accepted, failed if and only if it was answered in time with an error, timed out otherwise. */
  lemma EndsExactly(timeout: real, interval: real, replies: nat -> Reply)
    requires timeout >= 0.0 && interval > 0.0 && forall k :: Timely(replies(k))
    ensures var e := PollFrom(timeout, interval, replies, 0.0, 0);
      e.polls > 0
      && (var n := e.polls - 1;
          var inTime, sent := InTimeAt(timeout, interval, replies, n), SentAt(interval, replies, n);
          && !GoesOn(timeout, interval, replies, n) && (forall k | 0 <= k < n :: GoesOn(timeout, interval, replies, k))
          && (e.result.Satisfied? <==> inTime && replies(n).answer.Accepted?)
          && (e.result.Failed? <==> inTime && replies(n).answer.ErrorReply?)
          && (inTime ==> e.elapsed == sent + replies(n).delay)
          && (!inTime ==> sent + 0.1 <= e.elapsed <= sent + 5.0 + replies(n).probe))
  {
    var n := EndsFrom(timeout, interval, replies, 0);
    assert Timely(replies(n));
    assert PollFrom(timeout, interval, replies, 0.0, 0).polls == n + 1;
  }

  // ---------- the least bound ----------

  /** `m` polls answered as late as possible still end within the budget, but the budget is spent before
    * another poll could be sent and rejected: between them no poll of any run can end. */
  predicate Gap(timeout: real, interval: real, m: nat) {
    && timeout <= Times(m, interval)
    && (m > 0 ==> Times(m, CALL_TIMEOUT) + Times(m - 1, interval) < timeout)
  }

  function LatestEnd(interval: real, m: nat): real {
    Times(m, CALL_TIMEOUT + interval) + POLL_FLOOR + PROBE_TIMEOUT
  }

  /** In a gap every run ends by `LatestEnd`. */
  lemma {:induction false} GapBound(timeout: real, interval: real, replies: nat -> Reply, m: nat, elapsed: real, i: nat)
    requires timeout >= 0.0 && interval > 0.0 && forall k :: Timely(replies(k))
    requires Gap(timeout, interval, m) && i <= m
    requires Times(i, interval) <= elapsed <= Times(i, CALL_TIMEOUT + interval) && elapsed >= 0.0
    ensures PollFrom(timeout, interval, replies, elapsed, i).elapsed <= LatestEnd(interval, m)
    decreases m - i
  {
    var r := replies(i);
    var t := PollEnds(timeout, elapsed, r);
    TimesGrow(i, m, CALL_TIMEOUT + interval);
    GapEnd(timeout, interval, m, elapsed, r);
    if InTime(timeout, elapsed, r) && r.answer.Rejected? && t < timeout {
      if i >= m { TimesGrow(m, i, interval); }
      GapBound(timeout, interval, replies, m, t + interval, i + 1);
    }
  }

  lemma GapEnd(timeout: real, interval: real, m: nat, elapsed: real, r: Reply)
    requires interval > 0.0 && Timely(r) && timeout <= Times(m, interval)
    requires elapsed <= Times(m, CALL_TIMEOUT + interval)
    ensures PollEnds(timeout, elapsed, r) <= LatestEnd(interval, m)
  {
    TimesAdd(m, CALL_TIMEOUT, interval);
    TimesGrow(0, m, CALL_TIMEOUT);
  }

  /** A debugger that takes `d` to reject each of `m` polls and leaves the next one unanswered. */
  function Steady(d: real, m: nat): nat -> Reply {
    (k: nat) => if k < m then Reply(d, Rejected, 0.0) else Reply(CALL_TIMEOUT + 1.0, Rejected, PROBE_TIMEOUT)
  }

  lemma {:induction false} SteadyRun(timeout: real, interval: real, d: real, m: nat, i: nat)
    requires timeout >= 0.0 && interval > 0.0 && 0.0 <= d <= CALL_TIMEOUT && i <= m
    requires m > 0 ==> Times(m - 1, d + interval) + d < timeout
    requires Times(i, d + interval) >= 0.0
    ensures var last := Times(m, d + interval);
      PollFrom(timeout, interval, Steady(d, m), Times(i, d + interval), i)
        == Ended(TimedOut, last + PollBudget(timeout, last) + PROBE_TIMEOUT, m + 1)
    decreases m - i
  {
    if i < m {
      TimesGrow(i, m - 1, d + interval);
      SteadyRun(timeout, interval, d, m, i + 1);
    }
  }

  /** In a gap the bound is `LatestEnd`: every run keeps it and one run reaches it. With no time at all to
    * wait (`timeout` 0, `m` 0) that is one clamped poll and one probe, 0.6 s. */
  lemma GapBoundIsExact(timeout: real, interval: real, m: nat)
    requires timeout >= 0.0 && interval > 0.0 && Gap(timeout, interval, m)
    ensures forall replies: nat -> Reply | forall k :: Timely(replies(k)) ::
      PollFrom(timeout, interval, replies, 0.0, 0).elapsed <= LatestEnd(interval, m)
    ensures (forall k :: Timely(Steady(CALL_TIMEOUT, m)(k)))
    ensures PollFrom(timeout, interval, Steady(CALL_TIMEOUT, m), 0.0, 0).elapsed == LatestEnd(interval, m)
  {
    forall replies: nat -> Reply | forall k :: Timely(replies(k))
      ensures PollFrom(timeout, interval, replies, 0.0, 0).elapsed <= LatestEnd(interval, m)
    {
      GapBound(timeout, interval, replies, m, 0.0, 0);
    }
    if m > 0 { LastReject(interval, m); }
    SteadyRun(timeout, interval, CALL_TIMEOUT, m, 0);
    assert timeout - Times(m, CALL_TIMEOUT + interval) <= 0.0 by {
      TimesAdd(m, CALL_TIMEOUT, interval);
      TimesGrow(0, m, CALL_TIMEOUT);
    }
  }

  lemma LastReject(interval: real, m: nat)
    requires m > 0
    ensures Times(m - 1, CALL_TIMEOUT + interval) + CALL_TIMEOUT == Times(m, CALL_TIMEOUT) + Times(m - 1, interval)
  {
    TimesAdd(m - 1, CALL_TIMEOUT, interval);
  }

  /** Outside all gaps some number of polls can be rejected at any moment shortly before the budget ends. */
  lemma {:induction false} EnoughPolls(timeout: real, interval: real, m: nat) returns (k: nat)
    requires timeout > 0.0 && interval > 0.0 && forall n: nat :: !Gap(timeout, interval, n)
    requires m > 0 && Times(m - 1, interval) < timeout
    ensures k > 0 && Times(k - 1, interval) < timeout <= Times(k, CALL_TIMEOUT) + Times(k - 1, interval)
    decreases Room(timeout + CALL_TIMEOUT - Times(m, CALL_TIMEOUT), CALL_TIMEOUT)
  {
    if timeout <= Times(m, CALL_TIMEOUT) + Times(m - 1, interval) {
      k := m;
    } else {
      assert !Gap(timeout, interval, m);
      TimesGrow(0, m - 1, interval);
      RoomShrinks(timeout + CALL_TIMEOUT - Times(m, CALL_TIMEOUT),
                  timeout + CALL_TIMEOUT - Times(m + 1, CALL_TIMEOUT), CALL_TIMEOUT);
      k := EnoughPolls(timeout, interval, m + 1);
    }
  }

  /** The even pace at which `k` polls reach the moment `total`. */
  lemma EvenPace(interval: real, k: nat, total: real) returns (d: real)
    requires k > 0 && Times(k - 1, interval) <= total <= Times(k, CALL_TIMEOUT) + Times(k - 1, interval)
    ensures 0.0 <= d <= CALL_TIMEOUT
    ensures Times(k - 1, d + interval) + d == total && Times(k, d + interval) == total + interval
  {
    var rest := total - Times(k - 1, interval);
    d := rest / k as real;
    TimesIsProduct(k, CALL_TIMEOUT);
    Divided(rest, k as real, CALL_TIMEOUT);
    TimesIsProduct(k, d);
    TimesAdd(k, d, interval);
  }

  lemma Divided(rest: real, k: real, most: real)
    requires k > 0.0 && 0.0 <= rest <= k * most
    ensures 0.0 <= rest / k <= most && k * (rest / k) == rest
  {
    var d := rest / k;
    assert k * d == rest;
    SignOfProduct(k, d);
    assert k * (most - d) == k * most - k * d;
    SignOfProduct(k, most - d);
  }

  lemma SignOfProduct(k: real, d: real)
    requires k > 0.0
    ensures k * d >= 0.0 <==> d >= 0.0
  {}

  /** Outside all gaps the bound of `WaitForState` cannot be lowered: within any slack of it some debugger
    * makes a run end. */
  lemma BoundIsTight(timeout: real, interval: real, slack: real) returns (replies: nat -> Reply)
    requires timeout >= 0.0 && interval > 0.0 && slack > 0.0 && forall n: nat :: !Gap(timeout, interval, n)
    ensures forall k :: Timely(replies(k))
    ensures
      PollFrom(timeout, interval, replies, 0.0, 0).elapsed > timeout + interval + 0.6 - slack
  {
    assert !Gap(timeout, interval, 0);
    var k := EnoughPolls(timeout, interval, 1);
    var s := Min(slack / 2.0, timeout - Times(k - 1, interval));
    var d := EvenPace(interval, k, timeout - s);
    replies := Steady(d, k);
    SteadyRun(timeout, interval, d, k, 0);
  }

  /** And between them the two cases are all there is: the gaps are exactly where the general bound is not
    * the least one. */
  lemma GapsAreWhereItIsLoose(timeout: real, interval: real, m: nat)
    requires timeout >= 0.0 && interval > 0.0 && Gap(timeout, interval, m)
    ensures LatestEnd(interval, m) < timeout + interval + POLL_FLOOR + PROBE_TIMEOUT
  {
    if m > 0 {
      LastReject(interval, m);
    }
  }
}
