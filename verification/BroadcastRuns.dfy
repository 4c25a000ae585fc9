/** Nothing is lost on the way from the wire to a consumer but by overflow, and the game state is what the
  * dispatched broadcasts tell. */
module BroadcastRuns {
  import opened Queues
  import opened Broadcasts

  // ---------- completeness ----------

  /** The broadcasts received between the positions `i` and `j` of the wire. */
  function Stretch(wire: seq<Event>, i: nat, j: nat): seq<Cast>
    requires i <= j <= |wire|
  {
    seq(j - i, k requires 0 <= k < j - i => Cast(i + k, wire[i + k]))
  }

  /** How many arrivals of a run find the transport's queue full. */
  function Overflows(s: State, acts: seq<Action>): nat
    decreases |acts|
  {
    if acts == [] then 0
    else (if acts[0].Arrive? && |s.events| >= 256 then 1 else 0) + Overflows(Step(s, acts[0]), acts[1..])
  }

  lemma OneStepCounts(s: State, a: Action)
    ensures var s' := Step(s, a);
      |s'.log| + |s'.events| + |s.wire| + (if a.Arrive? && |s.events| >= 256 then 1 else 0)
        == |s.log| + |s.events| + |s'.wire|
  {}

  /** Everything received is dispatched, still queued, or was pushed out by an arrival that found 256 waiting. */
  lemma {:induction false} NothingSkipped(s: State, acts: seq<Action>)
    ensures var t := Run(s, acts);
      |t.log| + |t.events| + |s.wire| + Overflows(s, acts) == |s.log| + |s.events| + |t.wire|
    decreases |acts|
  {
    if acts != [] {
      OneStepCounts(s, acts[0]);
      NothingSkipped(Step(s, acts[0]), acts[1..]);
    }
  }

  /** So without such an arrival the dispatcher has handled the whole wire but for its end, in order. */
  lemma DispatchesTheWire(acts: seq<Action>)
    requires Overflows(Init, acts) == 0
    ensures var t := Run(Init, acts);
      |t.log| <= |t.wire| && t.log == Stretch(t.wire, 0, |t.log|) && t.events == Stretch(t.wire, |t.log|, |t.wire|)
  {
    var t := Run(Init, acts);
    NothingSkipped(Init, acts);
    InitInv();
    RunKeepsInv(Init, acts);
    forall i | 0 <= i < |t.log| ensures t.log[i] == Cast(i, t.wire[i]) { SerialIsPlace(t, i); }
    assert forall i | 0 <= i < |t.events| :: t.events[i] == Cast(|t.log| + i, t.wire[|t.log| + i]);
  }

  /** As many ascending serials below a bound as the bound has room for are 0, 1, 2 and so on. */
  lemma {:induction false} SerialsAtLeast(log: seq<Cast>, i: nat)
    requires Ascending(log) && i < |log|
    ensures log[i].serial >= i
  {
    if i > 0 { SerialsAtLeast(log, i - 1); }
  }

  lemma {:induction false} SerialsAtMost(log: seq<Cast>, i: nat)
    requires Ascending(log) && i < |log| && log[|log| - 1].serial < |log|
    ensures log[i].serial <= i
    decreases |log| - i
  {
    if i < |log| - 1 { SerialsAtMost(log, i + 1); }
  }

  lemma SerialIsPlace(s: State, i: nat)
    requires Inv(s) && |s.log| + |s.events| == |s.wire| && i < |s.log|
    ensures s.log[i] == Cast(i, s.wire[i])
  {
    assert s.log[|s.log| - 1].serial < |s.log| by {
      assert s.log[|s.log| - 1] in s.log;
      if s.events != [] { assert s.events[0] in s.events && s.events[0].serial == |s.log|; }
    }
    SerialsAtLeast(s.log, i);
    SerialsAtMost(s.log, i);
    assert s.log[i] in s.log;
  }

  /** The whole run leaves consumer `c` open and undrained, and never offers it a frame while it is full. */
  predicate Unhurried(s: State, acts: seq<Action>, c: Consumer)
    decreases |acts|
  {
    acts == []
    || (acts[0] != DrainBox(c) && (c.Subscriber? ==> acts[0] != Close(c.id))
        && (acts[0].Dispatch? && c in s.boxes ==> |s.boxes[c].queue| < Cap(c))
        && Unhurried(Step(s, acts[0]), acts[1..], c))
  }

  /** Everything a consumer has taken, and then what it holds. */
  function TakenAndHeld(m: Mailbox): seq<Cast> { m.got + m.queue }

  lemma UnhurriedStep(s: State, a: Action, c: Consumer)
    requires c in s.boxes && s.boxes[c].open && Unhurried(s, [a], c)
    ensures var s' := Step(s, a);
      && c in s'.boxes && s'.boxes[c].open && s'.log == s.log + Logged(s, a)
      && TakenAndHeld(s'.boxes[c]) == TakenAndHeld(s.boxes[c]) + OfEvent(Topic(c), Logged(s, a))
  {
    var m, b := s.boxes[c], Logged(s, a);
    if b != [] && Wants(c, b[0].event) {
      assert OfEvent(Topic(c), b) == [b[0]] && [b[0]][1..] == [];
      assert m.got + (m.queue + b) == m.got + m.queue + b;
    } else if a == Take(c) && m.queue != [] {
      assert m.got + m.queue == m.got + [m.queue[0]] + m.queue[1..];
    }
  }

  lemma UnhurriedFirst(s: State, acts: seq<Action>, c: Consumer)
    requires acts != [] && Unhurried(s, acts, c)
    ensures Unhurried(s, [acts[0]], c) && Unhurried(Step(s, acts[0]), acts[1..], c)
  {
    assert [acts[0]][1..] == [];
  }

  /** `x` grows to `y` by the frames of one step and to `z` by those of the steps after it. */
  lemma GrowthJoins(x: seq<Cast>, y: seq<Cast>, z: seq<Cast>, event: Event,
                    log: seq<Cast>, b: seq<Cast>, log': seq<Cast>)
    requires |b| <= 1 && log + b <= log'
    requires y == x + OfEvent(event, b) && z == y + OfEvent(event, log'[|log + b|..])
    ensures log <= log' && z == x + OfEvent(event, log'[|log|..])
  {
    var rest := log'[|log + b|..];
    assert log'[|log|..] == b + rest;
    OfEventAppend(event, b, rest);
  }

  lemma {:induction false} UnhurriedRun(s: State, acts: seq<Action>, c: Consumer)
    requires c in s.boxes && s.boxes[c].open && Unhurried(s, acts, c)
    ensures var s' := Run(s, acts);
      && c in s'.boxes && s.log <= s'.log
      && TakenAndHeld(s'.boxes[c]) == TakenAndHeld(s.boxes[c]) + OfEvent(Topic(c), s'.log[|s.log|..])
    decreases |acts|
  {
    if acts == [] {
      assert s.log[|s.log|..] == [];
      assert TakenAndHeld(s.boxes[c]) + [] == TakenAndHeld(s.boxes[c]);
    } else {
      UnhurriedFirst(s, acts, c);
      UnhurriedStep(s, acts[0], c);
      var s1, s' := Step(s, acts[0]), Run(s, acts);
      UnhurriedRun(s1, acts[1..], c);
      GrowthJoins(TakenAndHeld(s.boxes[c]), TakenAndHeld(s1.boxes[c]), TakenAndHeld(s'.boxes[c]), Topic(c),
                  s.log, Logged(s, acts[0]), s'.log);
    }
  }

  /** A consumer that keeps up misses nothing: what it has taken and holds grows by exactly what was
    * dispatched of its event, whenever and however often it reads. */
  lemma ReadInFull(s: State, acts: seq<Action>, c: Consumer)
    requires c in s.boxes && s.boxes[c].open && Unhurried(s, acts, c)
    ensures var s' := Run(s, acts);
      && c in s'.boxes && s.log <= s'.log
      && (c.Queue? ==> TakenAndHeld(s'.boxes[c]) == TakenAndHeld(s.boxes[c]) + OfEvent(c.event, s'.log[|s.log|..]))
      && (c.Subscriber? ==>
           TakenAndHeld(s'.boxes[c]) == TakenAndHeld(s.boxes[c]) + OfEvent(CpuStepping, s'.log[|s.log|..]))
  {
    UnhurriedRun(s, acts, c);
  }

  /** Each of the eight event names has its queue throughout, and no other name ever gets one. */
  lemma {:induction false} EventQueuesStand(acts: seq<Action>, event: Event)
    ensures Queue(event) in Run(Init, acts).boxes <==> !event.Other?
  {
    assert event in EVENTS <==> !event.Other?;
    QueuesStand(Init, acts, event);
  }

  lemma {:induction false} QueuesStand(s: State, acts: seq<Action>, event: Event)
    ensures Queue(event) in Run(s, acts).boxes <==> Queue(event) in s.boxes
    decreases |acts|
  {
    if acts != [] { QueuesStand(Step(s, acts[0]), acts[1..], event); }
  }

  /** The subscription is made during the run, and closed after that. */
  predicate ClosedAfter(acts: seq<Action>, id: nat) {
    exists i, j | 0 <= i < j < |acts| :: acts[i] == Subscribe(id) && acts[j] == Close(id)
  }

  lemma SubscriptionStep(s: State, a: Action, id: nat)
    ensures var c, t := Subscriber(id), Step(s, a);
      && (c in t.boxes <==> c in s.boxes || a == Subscribe(id))
      && (c in t.boxes ==> (t.boxes[c].open <==> if c in s.boxes then s.boxes[c].open && a != Close(id) else true))
  {}

  lemma {:induction false} OpenWhileNotClosed(s: State, acts: seq<Action>, id: nat)
    requires Subscriber(id) in s.boxes
    ensures var c, t := Subscriber(id), Run(s, acts);
      c in t.boxes && (t.boxes[c].open <==> s.boxes[c].open && Close(id) !in acts)
    decreases |acts|
  {
    if acts != [] {
      SubscriptionStep(s, acts[0], id);
      OpenWhileNotClosed(Step(s, acts[0]), acts[1..], id);
      assert Close(id) in acts <==> acts[0] == Close(id) || Close(id) in acts[1..];
    }
  }

  lemma ClosedLater(acts: seq<Action>, id: nat)
    requires acts != []
    ensures ClosedAfter(acts, id) <==>
      ClosedAfter(acts[1..], id) || (acts[0] == Subscribe(id) && Close(id) in acts[1..])
  {
    var rest := acts[1..];
    assert forall i | 0 <= i < |rest| :: rest[i] == acts[i + 1];
    if i, j :| 0 <= i < j < |acts| && acts[i] == Subscribe(id) && acts[j] == Close(id) {
      assert rest[j - 1] == Close(id);
      if i > 0 { assert rest[i - 1] == Subscribe(id); }
    }
    if i, j :| 0 <= i < j < |rest| && rest[i] == Subscribe(id) && rest[j] == Close(id) {
      assert acts[i + 1] == Subscribe(id) && acts[j + 1] == Close(id);
    }
    if acts[0] == Subscribe(id) && Close(id) in rest {
      var j :| 0 <= j < |rest| && rest[j] == Close(id);
      assert acts[j + 1] == Close(id);
    }
  }

  lemma {:induction false} SubscriptionsFrom(s: State, acts: seq<Action>, id: nat)
    requires Subscriber(id) !in s.boxes
    ensures var c, t := Subscriber(id), Run(s, acts);
      (c in t.boxes <==> Subscribe(id) in acts) && (c in t.boxes ==> (t.boxes[c].open <==> !ClosedAfter(acts, id)))
    decreases |acts|
  {
    if acts != [] {
      SubscriptionStep(s, acts[0], id);
      ClosedLater(acts, id);
      assert Subscribe(id) in acts <==> acts[0] == Subscribe(id) || Subscribe(id) in acts[1..];
      if acts[0] == Subscribe(id) {
        OpenWhileNotClosed(Step(s, acts[0]), acts[1..], id);
        if ClosedAfter(acts[1..], id) { assert Close(id) in acts[1..]; }
      } else {
        SubscriptionsFrom(Step(s, acts[0]), acts[1..], id);
      }
    }
  }

  /** After any run a subscription exists if and only if it was made, and still receives if and only if it was
    * not closed after that. */
  lemma SubscriptionsExact(acts: seq<Action>, id: nat)
    ensures var c, t := Subscriber(id), Run(Init, acts);
      && (c in t.boxes <==> Subscribe(id) in acts)
      && (c in t.boxes ==> (t.boxes[c].open <==> !ClosedAfter(acts, id)))
  {
    SubscriptionsFrom(Init, acts, id);
  }

  // ---------- the game state ----------

  /** A start is among the first `n` broadcasts of the log. */
  predicate Started(log: seq<Cast>, n: nat)
    requires n <= |log|
  {
    exists k | 0 <= k < n :: log[k].event.GameStart?
  }

  /** Among them is a pause, after the first start, with no resume behind it. */
  predicate HeldAt(log: seq<Cast>, n: nat, p: nat)
    requires n <= |log|
  {
    p < n && log[p].event.GamePause? && Started(log, p) && forall r | p < r < n :: !log[r].event.GameResume?
  }

  predicate Held(log: seq<Cast>, n: nat)
    requires n <= |log|
  {
    exists p | 0 <= p < n :: HeldAt(log, n, p)
  }

  /** A quit dispatched after the first start and not while held. */
  predicate QuitsAt(log: seq<Cast>, q: nat)
    requires q < |log|
  {
    log[q].event.GameQuit? && Started(log, q) && !Held(log, q)
  }

  predicate HasQuit(log: seq<Cast>) { exists q | 0 <= q < |log| :: QuitsAt(log, q) }

  /** The state the log tells. */
  predicate GameTold(game: Game, log: seq<Cast>) {
    match game
    case Loading => !Started(log, |log|)
    case Quit => HasQuit(log)
    case Paused => Held(log, |log|) && !HasQuit(log)
    case Running => Started(log, |log|) && !Held(log, |log|) && !HasQuit(log)
  }

  /** What is told of a beginning of the log does not depend on what follows it. */
  lemma ToldSoFar(log: seq<Cast>, b: Cast, n: nat)
    requires n <= |log|
    ensures Started(log + [b], n) <==> Started(log, n)
    ensures Held(log + [b], n) <==> Held(log, n)
  {
    var more := log + [b];
    assert forall k | 0 <= k < n :: more[k] == log[k];
    if p :| 0 <= p < n && HeldAt(log, n, p) { StartedSoFar(log, b, p); assert HeldAt(more, n, p); }
    if p :| 0 <= p < n && HeldAt(more, n, p) { StartedSoFar(log, b, p); assert HeldAt(log, n, p); }
  }

  lemma StartedSoFar(log: seq<Cast>, b: Cast, n: nat)
    requires n <= |log|
    ensures Started(log + [b], n) <==> Started(log, n)
  {
    assert forall k | 0 <= k < n :: (log + [b])[k] == log[k];
  }

  lemma StartedGrows(log: seq<Cast>, b: Cast)
    ensures Started(log + [b], |log| + 1) <==> Started(log, |log|) || b.event.GameStart?
  {
    var more := log + [b];
    assert forall k | 0 <= k < |log| :: more[k] == log[k];
    if b.event.GameStart? { assert more[|log|].event.GameStart?; }
  }

  lemma HeldGrows(log: seq<Cast>, b: Cast)
    ensures Held(log + [b], |log| + 1) <==>
      if b.event.GamePause? then Started(log, |log|) else Held(log, |log|) && !b.event.GameResume?
  {
    var more, n, m := log + [b], |log|, |log| + 1;
    assert more[n] == b && forall k | 0 <= k < n :: more[k] == log[k];
    StartedSoFar(log, b, n);
    if p :| 0 <= p < m && HeldAt(more, m, p) {
      StartedSoFar(log, b, p);
      if p < n && !b.event.GameResume? { assert HeldAt(log, n, p); }
      if p < n { StartedLater(log, p, n); }
    }
    if p :| 0 <= p < n && HeldAt(log, n, p) {
      StartedSoFar(log, b, p);
      if !b.event.GameResume? { assert HeldAt(more, n + 1, p); }
    }
    if b.event.GamePause? && Started(log, n) { assert HeldAt(more, n + 1, n); }
  }

  lemma StartedLater(log: seq<Cast>, m: nat, n: nat)
    requires m <= n <= |log| && Started(log, m)
    ensures Started(log, n)
  {}

  lemma QuitGrows(log: seq<Cast>, b: Cast)
    ensures HasQuit(log + [b]) <==>
      HasQuit(log) || (b.event.GameQuit? && Started(log, |log|) && !Held(log, |log|))
  {
    var more, n := log + [b], |log|;
    assert more[n] == b && forall k | 0 <= k < n :: more[k] == log[k];
    forall q: nat | q < n ensures QuitsAt(more, q) <==> QuitsAt(log, q) { ToldSoFar(log, b, q); }
    ToldSoFar(log, b, n);
    if q :| 0 <= q < |more| && QuitsAt(more, q) { assert q < n ==> QuitsAt(log, q); }
    if QuitsAt(more, n) { assert HasQuit(more); }
    if q :| 0 <= q < n && QuitsAt(log, q) { assert QuitsAt(more, q); }
  }

  /** Nothing but a start counts before the first one. */
  lemma NothingBeforeStart(log: seq<Cast>)
    requires !Started(log, |log|)
    ensures !Held(log, |log|) && !HasQuit(log)
  {
    forall m: nat | m <= |log| ensures !Started(log, m) {}
  }

  lemma QuitAfterStart(log: seq<Cast>)
    requires HasQuit(log)
    ensures Started(log, |log|)
  {
    if !Started(log, |log|) { NothingBeforeStart(log); }
  }

  lemma GameStep(game: Game, log: seq<Cast>, b: Cast)
    requires GameTold(game, log)
    ensures GameTold(Transition(game, b.event), log + [b])
  {
    StartedGrows(log, b);
    HeldGrows(log, b);
    QuitGrows(log, b);
    if game.Loading? { NothingBeforeStart(log); }
    if game.Quit? { QuitAfterStart(log); }
  }

  lemma {:induction false} GameToldAlways(s: State, acts: seq<Action>)
    requires GameTold(s.game, s.log)
    ensures GameTold(Run(s, acts).game, Run(s, acts).log)
    decreases |acts|
  {
    if acts != [] {
      if acts[0].Dispatch? && s.events != [] { GameStep(s.game, s.log, s.events[0]); }
      GameToldAlways(Step(s, acts[0]), acts[1..]);
    }
  }

  /** After any run the game state is what the dispatched broadcasts tell: loading exactly until a start,
    * quit exactly after a quit that met a started game not held by a pause, paused exactly while such a game
    * is held, running otherwise. */
  lemma GameExact(acts: seq<Action>, game: Game)
    ensures Run(Init, acts).game == game <==> GameTold(game, Run(Init, acts).log)
  {
    GameToldAlways(Init, acts);
    var s := Run(Init, acts);
    if !Started(s.log, |s.log|) { NothingBeforeStart(s.log); }
    if HasQuit(s.log) { QuitAfterStart(s.log); }
  }

  /** "quit" is terminal and "loading" is never re-entered, whatever broadcasts arrive or are missed. */
  lemma {:induction false} GameNeverGoesBack(s: State, acts: seq<Action>)
    ensures s.game.Quit? ==> Run(s, acts).game.Quit?
    ensures !s.game.Loading? ==> !Run(s, acts).game.Loading?
    decreases |acts|
  {
    if acts != [] { GameNeverGoesBack(Step(s, acts[0]), acts[1..]); }
  }
}
