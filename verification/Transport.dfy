/**
 * The ticketed WebSocket transport as a step system. One action is one await-free segment of
 * `WsTransport`; any interleaving of enabled actions is a run. A call is identified by the number
 * behind its ticket, and the diagnostic record of a call is stored with it.
 */
module Transport {
  import opened Text
  import opened Queues

  const EVENTS_QUEUE_MAX: nat := 256
  const VERSION_QUEUE_MAX: nat := 8
  const FIRE_AND_FORGET_MEMORY: nat := 64
  const RING_CAPACITY: nat := 200

  /** A decoded message. `stepping` is the truth value of its "stepping" entry, if it has one. */
  datatype Frame = Frame(ticket: Option<string>, event: string, stepping: Option<bool>, body: string)

  /** What one receive yields: a JSON object, or something the loop drops as malformed. */
  datatype Wire = Data(frame: Frame) | Malformed

  datatype Future = Unresolved | Answer(frame: Frame) | Failure(error: string) | Dead

  datatype Outcome = Returned(frame: Frame) | Raised(error: string) | TimedOut | Aborted

  datatype Phase =
    | Sending                 // suspended in ws.send
    | Waiting                 // suspended on its future
    | Probing(shown: string)  // timed out, suspended in the stepping probe
    | Done(outcome: Outcome)

  /** Why a waiting call is about to wake without being answered. */
  datatype Stop = Deadline | Cancellation

  datatype Record = Record(
    settled: bool, timedOut: bool, error: string, stepping: Option<bool>, broadcastAt: Option<real>)

  datatype Call = Call(
    event: string, parent: Option<nat>, phase: Phase, future: Future, stop: Option<Stop>, record: Record)

  datatype State = State(
    counter: nat,
    calls: map<nat, Call>,
    pending: map<string, nat>,
    events: seq<Frame>,
    dropped: nat,
    versions: seq<Frame>,
    echoes: seq<string>,   // tickets of recent fire-and-forget sends
    ring: seq<nat>,        // records still in the diagnostics ring
    probing: bool,         // the probe latch
    receiving: bool,       // a receive loop is alive
    mislogged: nat)        // frames logged as malformed

  datatype Action =
    | Begin(event: string, parent: Option<nat>)
    | Sent(id: nat)
    | SendFail(id: nat, cancelled: bool, error: string)
    | Receive(wire: Wire, now: real)
    | Interrupt(id: nat, why: Stop)
    | Wake(id: nat, shown: string)
    | ProbeUnsent(id: nat, cancelled: bool)
    | Disconnect
    | LoopExit
    | CloseFlush
    | Reconnect
    | FireAndForget
    | TakeEvent

  const Init: State := State(0, map[], map[], [], 0, [], [], [], false, false, 0)

  function Ticket(n: nat): string { "t" + Decimal(n) }

  lemma TicketInjective(m: nat, n: nat)
    requires Ticket(m) == Ticket(n)
    ensures m == n
  {
    assert Decimal(m) == Ticket(m)[1..] == Ticket(n)[1..] == Decimal(n);
    DecimalInjective(m, n);
  }

  /** How Python prints a timeout: a float or int numeral, "inf" or "nan". */
  predicate NumeralText(s: string) { forall c | c in s :: c in "0123456789.e+-infa" }

  function TimeoutText(shown: string): string { "no response within " + shown + "s" }

  // ---------- diagnostics ----------

  const Fresh: Record := Record(false, false, "", None, None)

  function Settle(r: Record, timedOut: bool, error: string, stepping: Option<bool>): Record {
    r.(settled := true, timedOut := timedOut, error := error, stepping := stepping)
  }

  predicate Stamped(s: State, n: nat, event: string)
    requires n in s.calls
  {
    n in s.ring && !s.calls[n].record.settled && s.calls[n].event == event
  }

  function Stamp(c: Call, now: real): Call { c.(record := c.record.(broadcastAt := Some(now))) }

  /** `note_broadcast`: stamp every unsettled record of this event still in the ring. */
  function NoteBroadcast(s: State, event: string, now: real): State {
    s.(calls := map n | n in s.calls :: if Stamped(s, n, event) then Stamp(s.calls[n], now) else s.calls[n])
  }

  // ---------- frame dispatch ----------

  predicate Matched(s: State, f: Frame) { f.ticket.Some? && f.ticket.value != "" && f.ticket.value in s.pending }

  predicate OwnEcho(s: State, f: Frame) { f.ticket.Some? && f.ticket.value != "" && f.ticket.value in s.echoes }

  function PutEvent(s: State, f: Frame): State {
    s.(events := Put(EVENTS_QUEUE_MAX, s.events, f),
       dropped := if |s.events| >= EVENTS_QUEUE_MAX then s.dropped + 1 else s.dropped)
  }

  /** Version replies have a queue of their own. */
  function Filed(s: State, f: Frame): State {
    if f.event == "version" then s.(versions := Put(VERSION_QUEUE_MAX, s.versions, f)) else PutEvent(s, f)
  }

  function Unmatched(s: State, f: Frame, now: real): State {
    Filed(if OwnEcho(s, f) then s else NoteBroadcast(s, f.event, now), f)
  }

  /** A matched frame pops its ticket, then resolves the future. Failing a future that is already
    * done raises inside the loop, which logs the frame as malformed. */
  function Respond(s: State, f: Frame): State
    requires Matched(s, f)
  {
    var n := s.pending[f.ticket.value];
    var popped := s.(pending := s.pending - {f.ticket.value});
    if n !in s.calls then popped
    else
      var c := s.calls[n];
      if f.event == "error" then
        if c.future.Unresolved? then popped.(calls := s.calls[n := c.(future := Failure(f.body))])
        else popped.(mislogged := s.mislogged + 1)
      else if c.future.Dead? then popped
      else if c.future.Unresolved? then popped.(calls := s.calls[n := c.(future := Answer(f))])
      else popped.(mislogged := s.mislogged + 1)
  }

  function Deliver(s: State, w: Wire, now: real): State {
    match w
    case Malformed => s.(mislogged := s.mislogged + 1)
    case Data(f) => if Matched(s, f) then Respond(s, f) else Unmatched(s, f, now)
  }

  // ---------- call lifecycle ----------

  function Start(s: State, event: string, parent: Option<nat>): State {
    var n := s.counter + 1;
    s.(counter := n,
       calls := s.calls[n := Call(event, parent, Sending, Unresolved, None, Fresh)],
       pending := s.pending[Ticket(n) := n],
       ring := Put(RING_CAPACITY, s.ring, n))
  }

  function ProbeValue(o: Outcome): Option<bool> {
    if o.Returned? then o.frame.stepping else None
  }

  /** The probe of call `p` is over: drop the latch and settle `p`, unless the caller's task was
    * cancelled, in which case the exception leaves the handler before the settle. */
  function ProbeOver(s: State, p: nat, o: Outcome): State
    requires p in s.calls && s.calls[p].phase.Probing?
  {
    var c := s.calls[p];
    s.(probing := false,
       calls := s.calls[p :=
         if o.Aborted? then c.(phase := Done(Aborted))
         else c.(phase := Done(TimedOut),
                 record := Settle(c.record, true, TimeoutText(c.phase.shown), ProbeValue(o)))])
  }

  /** How a call ends and what its record is settled with. */
  datatype End = End(outcome: Outcome, timedOut: bool, error: string)

  /** The ticket is popped and the record settled. */
  function Ended(s: State, n: nat, e: End): State
    requires n in s.calls
  {
    var c := s.calls[n];
    s.(pending := s.pending - {Ticket(n)},
       calls := s.calls[n := c.(phase := Done(e.outcome), record := Settle(c.record, e.timedOut, e.error, None))])
  }

  /** A call ends; if it was the probe of another call, that call ends in the same segment. */
  function Finish(s: State, n: nat, e: End): State
    requires n in s.calls
  {
    var s' := Ended(s, n, e);
    var parent := s.calls[n].parent;
    if parent.Some? && parent.value in s'.calls && s'.calls[parent.value].phase.Probing?
    then ProbeOver(s', parent.value, e.outcome)
    else s'
  }

  /** What the awaiting caller sees when it runs again. */
  function EndOf(c: Call, shown: string): End {
    match c.stop
    case Some(Cancellation) => End(Aborted, false, "CancelledError: ")
    case Some(Deadline) => End(TimedOut, true, TimeoutText(shown))
    case None =>
      match c.future
      case Answer(f) => End(Returned(f), false, "")
      case Failure(e) => End(Raised(e), false, e)
      case _ => End(Aborted, false, "CancelledError: ")
  }

  function EndOfSend(cancelled: bool, error: string): End {
    End(if cancelled then Aborted else Raised(error), false, error)
  }

  function StartProbe(s: State, n: nat, shown: string): State
    requires n in s.calls
  {
    s.(pending := s.pending - {Ticket(n)}, probing := true,
       calls := s.calls[n := s.calls[n].(phase := Probing(shown))])
  }

  /** A timed-out caller pops its ticket and probes unless a probe is already running; every other
    * caller ends at once. */
  function WakeUp(s: State, n: nat, shown: string): State
    requires n in s.calls
  {
    if s.calls[n].stop == Some(Deadline) && !s.probing then StartProbe(s, n, shown)
    else Finish(s, n, EndOf(s.calls[n], shown))
  }

  function FailSome(calls: map<nat, Call>, ids: set<nat>, error: string): map<nat, Call> {
    map n | n in calls ::
      if n in ids && calls[n].future.Unresolved? then calls[n].(future := Failure(error)) else calls[n]
  }

  /** Every future still in the table fails, then the table is empty. */
  function FailAll(s: State, error: string): State {
    s.(pending := map[], calls := FailSome(s.calls, s.pending.Values, error))
  }

  // ---------- steps ----------

  ghost predicate HasProbeCall(s: State, p: nat) { exists m :: m in s.calls && s.calls[m].parent == Some(p) }

  predicate InPhase(s: State, n: nat, sending: bool) {
    n in s.calls && (if sending then s.calls[n].phase.Sending? else s.calls[n].phase.Waiting?)
  }

  ghost predicate Enabled(s: State, a: Action) {
    match a
    case Begin(_, None) => true
    case Begin(event, Some(p)) =>
      event == "cpu.status" && p in s.calls && s.calls[p].phase.Probing? && !HasProbeCall(s, p)
    case Sent(n) => InPhase(s, n, true)
    case SendFail(n, _, _) => InPhase(s, n, true)
    case Receive(_, _) => s.receiving
    case Interrupt(n, _) => InPhase(s, n, false)
    case Wake(n, shown) =>
      InPhase(s, n, false) && NumeralText(shown) && (s.calls[n].stop.Some? || !s.calls[n].future.Unresolved?)
    case ProbeUnsent(n, _) => n in s.calls && s.calls[n].phase.Probing? && !HasProbeCall(s, n)
    case Disconnect => s.receiving
    case TakeEvent => s.events != []
    case _ => true
  }

  ghost function Step(s: State, a: Action): State
    requires Enabled(s, a)
  {
    match a
    case Begin(event, parent) => Start(s, event, parent)
    case Sent(n) => s.(calls := s.calls[n := s.calls[n].(phase := Waiting)])
    case SendFail(n, cancelled, error) => Finish(s, n, EndOfSend(cancelled, error))
    case Receive(w, now) => Deliver(s, w, now)
    case Interrupt(n, why) => Interrupted(s, n, why)
    case Wake(n, shown) => WakeUp(s, n, shown)
    case ProbeUnsent(n, cancelled) => ProbeOver(s, n, if cancelled then Aborted else Raised(""))
    case Disconnect => FailAll(s, "PPSSPP WebSocket disconnected").(receiving := false)
    case LoopExit => s.(receiving := false)
    case CloseFlush => FailAll(s, "WebSocket closed").(receiving := false)
    case Reconnect => s.(receiving := true)
    case FireAndForget =>
      s.(counter := s.counter + 1, echoes := Put(FIRE_AND_FORGET_MEMORY, s.echoes, Ticket(s.counter + 1)))
    case TakeEvent => s.(events := s.events[1..])
  }

  /** A timer or a cancellation reaches a waiting call: an unresolved future is cancelled at once,
    * the caller itself runs later. */
  function Interrupted(s: State, n: nat, why: Stop): State
    requires n in s.calls
  {
    var c := s.calls[n];
    s.(calls := s.calls[n := c.(stop := Some(why), future := if c.future.Unresolved? then Dead else c.future)])
  }

  // ---------- invariant ----------

  predicate Unfinished(c: Call) { c.phase.Sending? || c.phase.Waiting? }

  /** What holds of a call's future at every moment. */
  ghost predicate FutureOk(s: State, n: nat)
    requires n in s.calls
  {
    var c := s.calls[n];
    // an unfinished, unresolved call can still be answered
    && (Unfinished(c) && c.future.Unresolved? ==> Ticket(n) in s.pending && s.pending[Ticket(n)] == n)
    // a future only ever holds a frame that carries its own ticket, and so does a return value
    && (c.future.Answer? ==> c.future.frame.ticket == Some(Ticket(n)))
    && (c.phase.Done? && c.phase.outcome.Returned? ==> c.future == Answer(c.phase.outcome.frame))
    && (c.future.Dead? ==> c.stop.Some? && !c.phase.Sending?)
    // a timer or a cancellation leaves no future unresolved
    && (c.future.Unresolved? ==> c.stop.None?)
  }

  /** What holds of a call's phase, its prober and its record at every moment. */
  ghost predicate CallOk(s: State, n: nat)
    requires n in s.calls
  {
    var c := s.calls[n];
    && 1 <= n <= s.counter
    && FutureOk(s, n)
    // the probe latch is up while anybody probes, and a probe call never probes
    && (c.phase.Probing? ==> s.probing && c.parent.None? && NumeralText(c.phase.shown))
    && (c.parent.Some? ==> c.parent.value in s.calls && c.parent.value != n && c.event == "cpu.status")
    && (c.parent.Some? && !c.phase.Done? ==> s.calls[c.parent.value].phase.Probing?)
    // a settled record belongs to a finished call; only a call cancelled under its probe is left unsettled
    && (c.record.settled ==> c.phase.Done?)
    && (c.phase.Done? && !c.record.settled ==> c.phase.outcome.Aborted? && c.parent.None?)
    && (c.record.timedOut <==> c.phase == Done(TimedOut))
    && (c.record.timedOut ==> exists shown :: NumeralText(shown) && c.record.error == TimeoutText(shown))
    && (!c.record.timedOut ==> c.record.stepping.None?)
  }

  /** What holds of one entry of the ticket table. */
  ghost predicate EntryOk(s: State, t: string)
    requires t in s.pending
  {
    var n := s.pending[t];
    && t == Ticket(n)
    && n in s.calls && Unfinished(s.calls[n])
    && (s.calls[n].future.Unresolved? || s.calls[n].future.Dead?)
  }

  ghost predicate OneProber(s: State) {
    && (s.probing ==> exists p :: p in s.calls && s.calls[p].phase.Probing?)
    && (forall p, q | p in s.calls && q in s.calls && s.calls[p].phase.Probing? && s.calls[q].phase.Probing? :: p == q)
    && (forall m, n |
          m in s.calls && n in s.calls && s.calls[m].parent.Some? && s.calls[m].parent == s.calls[n].parent :: m == n)
  }

  ghost predicate QueuesOk(s: State) {
    && |s.events| <= EVENTS_QUEUE_MAX
    && |s.versions| <= VERSION_QUEUE_MAX
    && |s.echoes| <= FIRE_AND_FORGET_MEMORY
    && |s.ring| <= RING_CAPACITY
    && (forall i | 0 <= i < |s.ring| :: s.ring[i] in s.calls)
    && (forall i, j | 0 <= i < j < |s.ring| :: s.ring[i] < s.ring[j])
  }

  ghost predicate Inv(s: State) {
    && (forall n | n in s.calls :: CallOk(s, n))
    && (forall t | t in s.pending :: EntryOk(s, t))
    && OneProber(s)
    && QueuesOk(s)
  }
}
