/**
 * From the wire to the consumers: the transport's bounded broadcast queue, the single dispatcher,
 * and one bounded mailbox per consumer (the per-event queues and the stepping subscriptions).
 * Actions are the await-free segments; an action that finds nothing to do changes nothing.
 */
module Broadcasts {
  import opened Queues

  const WIRE_CAP: nat := 256
  const EVENT_CAP: nat := 64
  const SUBSCRIPTION_CAP: nat := 32

  /** Event names: the eight with a queue of their own, and every other. */
  datatype Event =
    | GameStart | GameQuit | GamePause | GameResume | Log | CpuResume | CpuStepping | GpuStats
    | Other(name: string)

  /** A broadcast; `serial` is its position among all broadcasts received. */
  datatype Cast = Cast(serial: nat, event: Event)

  datatype Consumer = Queue(event: Event) | Subscriber(id: nat)

  function Cap(c: Consumer): nat { if c.Queue? then EVENT_CAP else SUBSCRIPTION_CAP }

  /** The event a consumer reads. */
  function Topic(c: Consumer): Event {
    match c
    case Queue(event) => event
    case Subscriber(_) => CpuStepping
  }

  predicate Wants(c: Consumer, event: Event) { event == Topic(c) }

  /** `offered` and `got` are the whole history of what was put in and taken out. */
  datatype Mailbox = Mailbox(queue: seq<Cast>, open: bool, offered: seq<Cast>, got: seq<Cast>)

  const Empty: Mailbox := Mailbox([], true, [], [])

  function Offer(c: Consumer, m: Mailbox, b: Cast): Mailbox {
    if m.open && Wants(c, b.event) then m.(queue := Put(Cap(c), m.queue, b), offered := m.offered + [b]) else m
  }

  function TakeOne(m: Mailbox): Mailbox {
    if m.queue == [] then m else m.(queue := m.queue[1..], got := m.got + [m.queue[0]])
  }

  datatype Game = Loading | Running | Paused | Quit

  function Transition(g: Game, event: Event): Game {
    match g
    case Loading => if event.GameStart? then Running else g
    case Running => if event.GamePause? then Paused else if event.GameQuit? then Quit else g
    case Paused => if event.GameResume? then Running else g
    case Quit => g
  }

  /** `wire` is everything received so far, `log` what the dispatcher has handled. */
  datatype State = State(wire: seq<Event>, events: seq<Cast>, log: seq<Cast>, game: Game, boxes: map<Consumer, Mailbox>)

  const EVENTS: set<Event> := {GameStart, GameQuit, GamePause, GameResume, Log, CpuResume, CpuStepping, GpuStats}

  const EVENT_QUEUES: set<Consumer> := set e | e in EVENTS :: Queue(e)

  const Init: State := State([], [], [], Loading, map c | c in EVENT_QUEUES :: Empty)

  datatype Action =
    | Arrive(event: Event)
    | Dispatch
    | Subscribe(id: nat)
    | Take(c: Consumer)
    | DrainBox(c: Consumer)
    | Close(id: nat)

  function Update(s: State, c: Consumer, m: Mailbox): State { s.(boxes := s.boxes[c := m]) }

  function Step(s: State, a: Action): State {
    match a
    case Arrive(event) =>
      s.(wire := s.wire + [event], events := Put(WIRE_CAP, s.events, Cast(|s.wire|, event)))
    case Dispatch => if s.events == [] then s else Dispatched(s.(events := s.events[1..]), s.events[0])
    case Subscribe(id) => if Subscriber(id) in s.boxes then s else Update(s, Subscriber(id), Empty)
    case Take(c) => if c in s.boxes then Update(s, c, TakeOne(s.boxes[c])) else s
    case DrainBox(c) => if c in s.boxes then Update(s, c, s.boxes[c].(queue := [])) else s
    case Close(id) =>
      var c := Subscriber(id);
      if c in s.boxes then Update(s, c, s.boxes[c].(open := false)) else s
  }

  /** The dispatcher hands one broadcast to every open mailbox that wants it. */
  function Dispatched(s: State, b: Cast): State {
    s.(log := s.log + [b], game := Transition(s.game, b.event),
       boxes := map c | c in s.boxes :: Offer(c, s.boxes[c], b))
  }

  lemma DispatchOffersEverywhere(s: State)
    requires s.events != []
    ensures var s' := Step(s, Dispatch);
      && s'.boxes.Keys == s.boxes.Keys && s'.game == Transition(s.game, s.events[0].event)
      && forall c | c in s.boxes :: s'.boxes[c] == Offer(c, s.boxes[c], s.events[0])
  {}

  lemma OfferKeepsOpen(c: Consumer, m: Mailbox, b: Cast)
    ensures Offer(c, m, b).open == m.open
  {}

  function Run(s: State, acts: seq<Action>): State
    decreases |acts|
  {
    if acts == [] then s else Run(Step(s, acts[0]), acts[1..])
  }

  // ---------- order ----------

  predicate Ascending(s: seq<Cast>) { forall i, j | 0 <= i < j < |s| :: s[i].serial < s[j].serial }

  predicate AllBelow(s: seq<Cast>, n: nat) { forall i | 0 <= i < |s| :: s[i].serial < n }

  predicate AllFrom(s: seq<Cast>, n: nat) { forall i | 0 <= i < |s| :: s[i].serial >= n }

  /** One past the last dispatched serial. */
  function Mark(s: State): nat { if s.log == [] then 0 else s.log[|s.log| - 1].serial + 1 }

  /** A mailbox holds the newest frames offered to it. */
  predicate Newest(c: Consumer, m: Mailbox) {
    |m.queue| <= Cap(c) && |m.queue| <= |m.offered| && m.queue == LastN(|m.queue|, m.offered)
  }

  /** What was taken and what is held are in wire order, none twice, all already dispatched. */
  predicate InOrder(m: Mailbox, mark: nat) { Ascending(m.got + m.queue) && AllBelow(m.got + m.queue, mark) }

  /** Only dispatched frames the consumer wants are offered, and only offered frames are taken. */
  predicate Honest(c: Consumer, m: Mailbox, log: seq<Cast>) {
    && (forall b | b in m.offered :: b in log && Wants(c, b.event))
    && (forall b | b in m.got :: b in m.offered)
  }

  predicate BoxOk(c: Consumer, m: Mailbox, log: seq<Cast>, mark: nat) {
    Newest(c, m) && InOrder(m, mark) && Honest(c, m, log)
  }

  /** Every frame is the one received at its position. */
  predicate FromWire(frames: seq<Cast>, wire: seq<Event>) {
    forall b | b in frames :: b.serial < |wire| && b.event == wire[b.serial]
  }

  /** The transport's queue is the end of the wire: nothing in the middle of it is ever missing. */
  predicate NewestOfWire(events: seq<Cast>, wire: seq<Event>) {
    && |events| <= |wire|
    && forall i | 0 <= i < |events| ::
         var serial := |wire| - |events| + i; events[i] == Cast(serial, wire[serial])
  }

  predicate Inv(s: State) {
    && Ascending(s.log) && Ascending(s.events)
    && AllFrom(s.events, Mark(s)) && Mark(s) <= |s.wire|
    && FromWire(s.log, s.wire) && NewestOfWire(s.events, s.wire)
    && |s.events| <= WIRE_CAP
    && forall c | c in s.boxes :: BoxOk(c, s.boxes[c], s.log, Mark(s))
  }

  lemma OfferNewest(c: Consumer, m: Mailbox, b: Cast)
    requires Newest(c, m)
    ensures Newest(c, Offer(c, m, b))
  {
    var dropped := if |m.queue| >= Cap(c) then m.queue[..1] else [];
    assert m.queue + [b] == dropped + Put(Cap(c), m.queue, b);
    NewestPartGrows(m.offered, m.queue, [b], dropped, Put(Cap(c), m.queue, b));
  }

  /** Putting into a queue drops at most its head and appends; `got` in front stays. */
  lemma PutShape(got: seq<Cast>, queue: seq<Cast>, cap: nat, b: Cast)
    requires cap > 0
    ensures got + Put(cap, queue, b) == got + (if |queue| >= cap then queue[1..] else queue) + [b]
  {}

  lemma WithoutOne(got: seq<Cast>, queue: seq<Cast>, mark: nat)
    requires queue != [] && Ascending(got + queue) && AllBelow(got + queue, mark)
    ensures Ascending(got + queue[1..]) && AllBelow(got + queue[1..], mark)
  {
    var all, rest := got + queue, got + queue[1..];
    assert forall i | 0 <= i < |rest| :: rest[i] == all[if i < |got| then i else i + 1];
  }

  lemma OfferInOrder(c: Consumer, m: Mailbox, b: Cast, mark: nat)
    requires InOrder(m, mark) && mark <= b.serial
    ensures InOrder(Offer(c, m, b), b.serial + 1)
  {
    if m.open && Wants(c, b.event) {
      PutShape(m.got, m.queue, Cap(c), b);
      if |m.queue| >= Cap(c) {
        WithoutOne(m.got, m.queue, mark);
        AppendOrder(m.got + m.queue[1..], mark, b);
      } else {
        AppendOrder(m.got + m.queue, mark, b);
      }
    }
  }

  lemma AppendOrder(frames: seq<Cast>, mark: nat, b: Cast)
    requires Ascending(frames) && AllBelow(frames, mark) && mark <= b.serial
    ensures Ascending(frames + [b]) && AllBelow(frames + [b], b.serial + 1)
  {}

  lemma TakeKeepsBox(c: Consumer, m: Mailbox, log: seq<Cast>, mark: nat)
    requires BoxOk(c, m, log, mark)
    ensures BoxOk(c, TakeOne(m), log, mark)
  {
    if m.queue != [] {
      assert TakeOne(m).got + TakeOne(m).queue == m.got + m.queue;
      assert m.queue[0] == m.offered[|m.offered| - |m.queue|];
    }
  }

  lemma DrainKeepsBox(c: Consumer, m: Mailbox, log: seq<Cast>, mark: nat)
    requires BoxOk(c, m, log, mark)
    ensures BoxOk(c, m.(queue := []), log, mark)
  {
    assert m.got + [] == (m.got + m.queue)[..|m.got|];
  }

  lemma DispatchKeepsBox(c: Consumer, m: Mailbox, log: seq<Cast>, mark: nat, b: Cast)
    requires BoxOk(c, m, log, mark) && mark <= b.serial
    ensures BoxOk(c, Offer(c, m, b), log + [b], b.serial + 1)
  {
    OfferNewest(c, m, b);
    OfferInOrder(c, m, b, mark);
  }

  lemma DispatchOnWire(events: seq<Cast>, log: seq<Cast>, wire: seq<Event>)
    requires NewestOfWire(events, wire) && events != [] && FromWire(log, wire)
    ensures NewestOfWire(events[1..], wire) && FromWire(log + [events[0]], wire) && events[0].serial < |wire|
  {}

  lemma DispatchKeepsInv(s: State)
    requires Inv(s) && s.events != []
    ensures Inv(Step(s, Dispatch))
  {
    var s', b := Step(s, Dispatch), s.events[0];
    DispatchOnWire(s.events, s.log, s.wire);
    forall c | c in s'.boxes ensures BoxOk(c, s'.boxes[c], s'.log, Mark(s')) {
      assert BoxOk(c, s.boxes[c], s.log, Mark(s));
      DispatchKeepsBox(c, s.boxes[c], s.log, Mark(s), b);
    }
  }

  lemma UpdateKeepsInv(s: State, c: Consumer, m: Mailbox)
    requires Inv(s) && BoxOk(c, m, s.log, Mark(s))
    ensures Inv(Update(s, c, m))
  {
    var s' := Update(s, c, m);
    forall d | d in s'.boxes ensures BoxOk(d, s'.boxes[d], s'.log, Mark(s')) {
      if d != c { assert BoxOk(d, s.boxes[d], s.log, Mark(s)); }
    }
  }

  lemma ArriveKeepsInv(s: State, event: Event)
    requires Inv(s)
    ensures Inv(Step(s, Arrive(event)))
  {
    var s' := Step(s, Arrive(event));
    assert s'.boxes == s.boxes && s'.log == s.log;
    ArriveOnWire(s.events, s.wire, event);
  }

  lemma ArriveOnWire(events: seq<Cast>, wire: seq<Event>, event: Event)
    requires NewestOfWire(events, wire) && |events| <= WIRE_CAP
    ensures NewestOfWire(Put(WIRE_CAP, events, Cast(|wire|, event)), wire + [event])
  {}

  lemma StepKeepsInv(s: State, a: Action)
    requires Inv(s)
    ensures Inv(Step(s, a))
  {
    match a
    case Arrive(event) => ArriveKeepsInv(s, event);
    case Dispatch => if s.events != [] { DispatchKeepsInv(s); }
    case Subscribe(id) => if Subscriber(id) !in s.boxes { UpdateKeepsInv(s, Subscriber(id), Empty); }
    case Take(c) =>
      if c in s.boxes {
        TakeKeepsBox(c, s.boxes[c], s.log, Mark(s));
        UpdateKeepsInv(s, c, TakeOne(s.boxes[c]));
      }
    case DrainBox(c) =>
      if c in s.boxes {
        DrainKeepsBox(c, s.boxes[c], s.log, Mark(s));
        UpdateKeepsInv(s, c, s.boxes[c].(queue := []));
      }
    case Close(id) =>
      var c := Subscriber(id);
      if c in s.boxes {
        assert BoxOk(c, s.boxes[c], s.log, Mark(s));
        UpdateKeepsInv(s, c, s.boxes[c].(open := false));
      }
  }

  lemma {:induction false} RunKeepsInv(s: State, acts: seq<Action>)
    requires Inv(s)
    ensures Inv(Run(s, acts))
    decreases |acts|
  {
    if acts != [] {
      StepKeepsInv(s, acts[0]);
      RunKeepsInv(Step(s, acts[0]), acts[1..]);
    }
  }

  // ---------- main results ----------

  lemma InitInv()
    ensures Inv(Init)
  {
    forall c | c in Init.boxes ensures BoxOk(c, Init.boxes[c], Init.log, Mark(Init)) { assert Init.boxes[c] == Empty; }
  }

  /** Along any run from the start: every frame a consumer has taken or holds is the one received at its
    * position on the wire, of an event it subscribes to, in wire order and none twice; it was dispatched;
    * what a consumer holds is the newest part of what it was offered, within its bound; and the
    * transport's queue is the newest part of the wire, none of it dispatched yet. */
  lemma ConsumersSeeWireOrder(acts: seq<Action>, c: Consumer)
    requires c in Run(Init, acts).boxes
    ensures var s := Run(Init, acts); var m := s.boxes[c];
      && Ascending(s.log) && Ascending(m.got + m.queue)
      && FromWire(m.got + m.queue, s.wire)
      && (forall b | b in m.got + m.queue ::
            b in s.log && b.event == match c case Queue(event) => event case Subscriber(_) => CpuStepping)
      && |m.queue| <= (if c.Queue? then 64 else 32) && m.queue == LastN(|m.queue|, m.offered)
      && |s.events| <= 256 && NewestOfWire(s.events, s.wire) && AllFrom(s.events, Mark(s))
  {
    InitInv();
    RunKeepsInv(Init, acts);
    var s := Run(Init, acts);
    var m := s.boxes[c];
    assert BoxOk(c, m, s.log, Mark(s));
    forall b | b in m.got + m.queue ensures b in m.offered {
      if b in m.queue { assert b in LastN(|m.queue|, m.offered); }
    }
  }

  /** The frames of one event, out of a stretch of the log. */
  function OfEvent(event: Event, log: seq<Cast>): seq<Cast> {
    if log == [] then [] else (if log[0].event == event then [log[0]] else []) + OfEvent(event, log[1..])
  }

  /** What one step appends to the log. */
  function Logged(s: State, a: Action): seq<Cast> {
    if a.Dispatch? && s.events != [] then [s.events[0]] else []
  }

  predicate Touches(a: Action, c: Consumer) {
    match a
    case Take(d) => d == c
    case DrainBox(d) => d == c
    case Subscribe(id) => Subscriber(id) == c
    case Close(id) => Subscriber(id) == c
    case _ => false
  }

  lemma UnreadStep(s: State, a: Action, c: Consumer)
    requires c in s.boxes && s.boxes[c].open && !Touches(a, c)
    ensures var s' := Step(s, a);
      && c in s'.boxes && s'.boxes[c].open && s'.boxes[c].got == s.boxes[c].got
      && s'.log == s.log + Logged(s, a)
      && s'.boxes[c].queue == PutAll(Cap(c), s.boxes[c].queue, OfEvent(Topic(c), Logged(s, a)))
  {
    var b := Logged(s, a);
    if b != [] && Wants(c, b[0].event) { assert OfEvent(Topic(c), b) == [b[0]] && [b[0]][1..] == []; }
  }

  lemma {:induction false} OfEventAppend(event: Event, x: seq<Cast>, y: seq<Cast>)
    requires |x| <= 1
    ensures OfEvent(event, x + y) == OfEvent(event, x) + OfEvent(event, y)
  {
    if x == [] {
      assert x + y == y;
    } else {
      assert (x + y)[0] == x[0] && (x + y)[1..] == y && x[1..] == [];
    }
  }

  lemma {:induction false} UnreadRun(s: State, acts: seq<Action>, c: Consumer)
    requires c in s.boxes && s.boxes[c].open
    requires forall i | 0 <= i < |acts| :: !Touches(acts[i], c)
    ensures var s' := Run(s, acts);
      && c in s'.boxes && s'.boxes[c].got == s.boxes[c].got
      && s.log <= s'.log
      && s'.boxes[c].queue == PutAll(Cap(c), s.boxes[c].queue, OfEvent(Topic(c), s'.log[|s.log|..]))
    decreases |acts|
  {
    if acts == [] {
      assert s.log[|s.log|..] == [];
    } else {
      var s1, s', b := Step(s, acts[0]), Run(s, acts), Logged(s, acts[0]);
      UnreadStep(s, acts[0], c);
      UnreadRun(s1, acts[1..], c);
      var rest := s'.log[|s1.log|..];
      assert s'.log[|s.log|..] == b + rest;
      OfEventAppend(Topic(c), b, rest);
      PutAllAppend(Cap(c), s.boxes[c].queue, OfEvent(Topic(c), b), OfEvent(Topic(c), rest));
    }
  }

  /** A queue that is not read holds exactly the newest 64 of what it held and what was dispatched of its
    * event since; a subscription the newest 32 of cpu.stepping. */
  lemma UnreadMailboxExact(s: State, acts: seq<Action>, c: Consumer)
    requires c in s.boxes && s.boxes[c].open && |s.boxes[c].queue| <= Cap(c)
    requires forall i | 0 <= i < |acts| :: !Touches(acts[i], c)
    ensures var s' := Run(s, acts);
      && c in s'.boxes && s'.boxes[c].got == s.boxes[c].got && s.log <= s'.log
      && (c.Queue? ==>
           s'.boxes[c].queue == LastN(64, s.boxes[c].queue + OfEvent(c.event, s'.log[|s.log|..])))
      && (c.Subscriber? ==>
           s'.boxes[c].queue == LastN(32, s.boxes[c].queue + OfEvent(CpuStepping, s'.log[|s.log|..])))
  {
    UnreadRun(s, acts, c);
    PutAllKeepsNewest(Cap(c), s.boxes[c].queue, OfEvent(Topic(c), Run(s, acts).log[|s.log|..]));
  }

  /** `m'` has taken, beyond what `m` had, only frames at or after `mark`, and holds only such. */
  predicate Later(m: Mailbox, m': Mailbox, mark: nat) {
    m.got <= m'.got && AllFrom(m'.got[|m.got|..], mark) && AllFrom(m'.queue, mark)
  }

  lemma LaterOffer(c: Consumer, m: Mailbox, b: Cast, mark: nat)
    requires AllFrom(m.queue, mark) && mark <= b.serial
    ensures Later(m, Offer(c, m, b), mark)
  {}

  lemma LaterTake(m: Mailbox, mark: nat)
    requires AllFrom(m.queue, mark)
    ensures Later(m, TakeOne(m), mark)
  {}

  lemma LaterStep(s: State, a: Action, c: Consumer, mark: nat)
    requires c in s.boxes && AllFrom(s.boxes[c].queue, mark) && AllFrom(s.events, mark)
    ensures c in Step(s, a).boxes && Later(s.boxes[c], Step(s, a).boxes[c], mark)
  {
    var m := s.boxes[c];
    LaterTake(m, mark);
    if s.events != [] { LaterOffer(c, m, s.events[0], mark); }
    assert Later(m, m, mark) && Later(m, m.(queue := []), mark) && Later(m, m.(open := false), mark);
  }

  lemma LaterChain(g: seq<Cast>, g': seq<Cast>, g'': seq<Cast>, mark: nat)
    requires g <= g' <= g'' && AllFrom(g'[|g|..], mark) && AllFrom(g''[|g'|..], mark)
    ensures g <= g'' && AllFrom(g''[|g|..], mark)
  {
    assert g''[|g|..] == g'[|g|..] + g''[|g'|..];
  }

  lemma MarkGrows(s: State, a: Action)
    requires Inv(s)
    ensures Mark(s) <= Mark(Step(s, a))
  {}

  /** From a moment at which the queue holds nothing older than `mark` - after a drain, the next frame
    * to be dispatched - every frame taken later is at least as new. */
  lemma {:induction false} SeesOnlyLater(s: State, acts: seq<Action>, c: Consumer, mark: nat)
    requires Inv(s) && c in s.boxes && AllFrom(s.boxes[c].queue, mark) && mark <= Mark(s)
    ensures c in Run(s, acts).boxes && s.boxes[c].got <= Run(s, acts).boxes[c].got
    ensures AllFrom(Run(s, acts).boxes[c].got[|s.boxes[c].got|..], mark)
    decreases |acts|
  {
    if acts != [] {
      var s' := Step(s, acts[0]);
      LaterStep(s, acts[0], c, mark);
      MarkGrows(s, acts[0]);
      StepKeepsInv(s, acts[0]);
      SeesOnlyLater(s', acts[1..], c, mark);
      LaterChain(s.boxes[c].got, s'.boxes[c].got, Run(s, acts).boxes[c].got, mark);
    }
  }

  lemma DrainedSeesOnlyLater(s: State, acts: seq<Action>, c: Consumer)
    requires Inv(s) && c in s.boxes
    ensures var t := Run(Step(s, DrainBox(c)), acts);
      && c in t.boxes && s.boxes[c].got <= t.boxes[c].got
      && AllFrom(t.boxes[c].got[|s.boxes[c].got|..], Mark(s))
  {
    StepKeepsInv(s, DrainBox(c));
    SeesOnlyLater(Step(s, DrainBox(c)), acts, c, Mark(s));
  }

  // ---------- what a drain does not reach ----------

  /** Frames that were waiting for the dispatcher, or that came later. */
  predicate Unseen(frames: seq<Cast>, waiting: seq<Cast>, received: nat) {
    forall b | b in frames :: b in waiting || b.serial >= received
  }

  lemma UnseenStep(s: State, a: Action, c: Consumer, waiting: seq<Cast>, received: nat)
    requires c in s.boxes && Unseen(s.events, waiting, received) && Unseen(s.boxes[c].queue, waiting, received)
    requires received <= |s.wire|
    ensures var s' := Step(s, a);
      && received <= |s'.wire| && Unseen(s'.events, waiting, received)
      && c in s'.boxes && Unseen(s'.boxes[c].queue, waiting, received)
      && s.boxes[c].got <= s'.boxes[c].got && Unseen(s'.boxes[c].got[|s.boxes[c].got|..], waiting, received)
  {}

  lemma {:induction false} TakesOnlyUnseen(s: State, acts: seq<Action>, c: Consumer, waiting: seq<Cast>, received: nat)
    requires c in s.boxes && Unseen(s.events, waiting, received) && Unseen(s.boxes[c].queue, waiting, received)
    requires received <= |s.wire|
    ensures c in Run(s, acts).boxes && s.boxes[c].got <= Run(s, acts).boxes[c].got
    ensures Unseen(Run(s, acts).boxes[c].got[|s.boxes[c].got|..], waiting, received)
    decreases |acts|
  {
    if acts != [] {
      var s' := Step(s, acts[0]);
      UnseenStep(s, acts[0], c, waiting, received);
      TakesOnlyUnseen(s', acts[1..], c, waiting, received);
      var g, g', g'' := s.boxes[c].got, s'.boxes[c].got, Run(s, acts).boxes[c].got;
      assert g''[|g|..] == g'[|g|..] + g''[|g'|..];
    }
  }

  /** After a drain a consumer takes nothing older than the drain except what was still waiting for the
    * dispatcher at that moment. */
  lemma DrainMissesOnlyWaiting(s: State, acts: seq<Action>, c: Consumer)
    requires c in s.boxes
    ensures var t := Run(Step(s, DrainBox(c)), acts);
      && c in t.boxes && s.boxes[c].got <= t.boxes[c].got
      && Unseen(t.boxes[c].got[|s.boxes[c].got|..], s.events, |s.wire|)
  {
    TakesOnlyUnseen(Step(s, DrainBox(c)), acts, c, s.events, |s.wire|);
  }

  /** And that it does take: a resume broadcast received before the drain is the first one read after it. */
  lemma WaitingSurvivesDrain()
    ensures var c := Queue(CpuResume);
      var t := Run(Init, [Arrive(CpuResume), DrainBox(c), Dispatch, Take(c)]);
      c in t.boxes && t.boxes[c].got == [Cast(0, CpuResume)]
  {
    var c := Queue(CpuResume);
    assert CpuResume in EVENTS && c in EVENT_QUEUES;
    var s1 := Step(Init, Arrive(CpuResume));
    var s2 := Step(s1, DrainBox(c));
    var s3 := Step(s2, Dispatch);
    var s4 := Step(s3, Take(c));
    assert s3.boxes[c].queue == [Cast(0, CpuResume)];
    var acts := [Arrive(CpuResume), DrainBox(c), Dispatch, Take(c)];
    assert acts[1..] == [DrainBox(c), Dispatch, Take(c)] && acts[1..][1..] == [Dispatch, Take(c)];
    assert acts[1..][1..][1..] == [Take(c)] && [Take(c)][1..] == [];
    assert Run(Init, acts) == Run(s1, acts[1..]) == Run(s2, [Dispatch, Take(c)]) == Run(s3, [Take(c)]) == Run(s4, []);
  }

  // ---------- non-interference ----------

  /** Everything consumer `c` can observe. */
  datatype View = View(wire: seq<Event>, events: seq<Cast>, log: seq<Cast>, known: bool, box: Mailbox)

  function Seen(s: State, c: Consumer): View {
    View(s.wire, s.events, s.log, c in s.boxes, if c in s.boxes then s.boxes[c] else Empty)
  }

  predicate Relevant(a: Action, c: Consumer) { a.Arrive? || a.Dispatch? || Touches(a, c) }

  function Purge(acts: seq<Action>, c: Consumer): seq<Action> {
    if acts == [] then [] else (if Relevant(acts[0], c) then [acts[0]] else []) + Purge(acts[1..], c)
  }

  /** No subscriber or step-confirmation reader ever affects another: erase every action of the other
    * consumers from a run and consumer `c` sees, holds and has taken exactly the same. */
  lemma {:induction false} ConsumersDoNotInterfere(s: State, t: State, acts: seq<Action>, c: Consumer)
    requires Seen(s, c) == Seen(t, c)
    ensures Seen(Run(s, acts), c) == Seen(Run(t, Purge(acts, c)), c)
    decreases |acts|
  {
    if acts != [] {
      var a, rest := acts[0], Purge(acts[1..], c);
      if Relevant(a, c) {
        assert Purge(acts, c) == [a] + rest && ([a] + rest)[1..] == rest;
        assert Seen(Step(s, a), c) == Seen(Step(t, a), c);
        ConsumersDoNotInterfere(Step(s, a), Step(t, a), acts[1..], c);
      } else {
        assert Purge(acts, c) == rest;
        assert Seen(Step(s, a), c) == Seen(s, c);
        ConsumersDoNotInterfere(Step(s, a), t, acts[1..], c);
      }
    }
  }
}
