/** What one step of the transport can do to one call. */
module TransportMoves {
  import opened Text
  import opened Queues
  import opened Transport
  import opened TransportInvariant

  /** While call `n` is unsettled the receiver handles a frame of its event that matches no pending
    * ticket and is not the echo of a remembered fire-and-forget send. */
  predicate Heard(s: State, a: Action, n: nat) {
    && a.Receive? && a.wire.Data? && !Matched(s, a.wire.frame)
    && !(a.wire.frame.ticket.Some? && a.wire.frame.ticket.value != "" && a.wire.frame.ticket.value in s.echoes)
    && n in s.calls && !s.calls[n].record.settled && a.wire.frame.event == s.calls[n].event
  }

  /** The same, while the record is still in the bounded ring. */
  predicate Noted(s: State, a: Action, n: nat) { Heard(s, a, n) && n in s.ring }

  /** The receiver hands `f` to call `n`, which is unfinished and unanswered. */
  predicate Answered(s: State, a: Action, n: nat, f: Frame) {
    && a.Receive? && a.wire == Data(f) && f.event != "error" && f.ticket == Some(Ticket(n))
    && n in s.calls && Unfinished(s.calls[n]) && s.calls[n].future.Unresolved?
  }

  /** A call that was the probe of call `n` and returned a frame whose "stepping" entry is `answer`. */
  predicate ProbeReturned(c: Call, n: nat, answer: Option<bool>) {
    && c.parent == Some(n) && c.event == "cpu.status"
    && c.phase.Done? && c.phase.outcome.Returned? && c.phase.outcome.frame.stepping == answer
  }

  ghost predicate ProbeSaid(s: State, n: nat, answer: Option<bool>) {
    exists m | m in s.calls :: ProbeReturned(s.calls[m], n, answer)
  }

  /** The two ways a finishing call changes a call: ending it, or ending the call it probed for. */
  predicate Ends(c: Call, c': Call) {
    && Unfinished(c) && c'.phase.Done?
    && c' == c.(phase := c'.phase, record := Settle(c.record, c'.record.timedOut, c'.record.error, None))
  }

  ghost predicate ProbeEnds(s': State, n: nat, c: Call, c': Call) {
    c.phase.Probing?
    && (c' == c.(phase := Done(Aborted))
        || (c' == c.(phase := Done(TimedOut), record := Settle(c.record, true, c'.record.error, c'.record.stepping))
            && (c'.record.stepping.Some? ==> ProbeSaid(s', n, c'.record.stepping))))
  }

  /** The ways call `n` can change from `c` to `c'`. */
  ghost predicate Moves(s: State, a: Action, s': State, n: nat, c: Call, c': Call) {
    || c' == c
    || (Noted(s, a, n) && c' == Stamp(c, a.now))
    || (c.future.Unresolved? && c'.future.Failure? && c' == c.(future := c'.future))
    || (c'.future.Answer? && Answered(s, a, n, c'.future.frame) && c' == c.(future := c'.future))
    || (c.phase.Waiting? && c' == c.(stop := c'.stop, future := if c.future.Unresolved? then Dead else c.future))
    || (c.phase.Sending? && c' == c.(phase := Waiting))
    || (c.phase.Waiting? && c'.phase.Probing? && c' == c.(phase := c'.phase))
    || Ends(c, c')
    || ProbeEnds(s', n, c, c')
  }

  /** Every call known before survives the step and makes one of these moves; a broadcast stamp is
    * set exactly when the step noted one. */
  ghost predicate CallsMove(s: State, a: Action, s': State) {
    && s.calls.Keys <= s'.calls.Keys
    && (forall n | n in s.calls :: Moves(s, a, s', n, s.calls[n], s'.calls[n]))
    && (forall n | n in s.calls && Noted(s, a, n) :: s'.calls[n] == Stamp(s.calls[n], a.now))
  }

  /** Apart from the call that ends, only the call it probed for can change. */
  lemma FinishTouches(s: State, m: nat, e: End, n: nat)
    requires m in s.calls && n in s.calls && m != n && s.calls[m].parent != Some(m)
    ensures n in Finish(s, m, e).calls && m in Finish(s, m, e).calls
    ensures Finish(s, m, e).calls[m] == Ended(s, m, e).calls[m]
    ensures s.calls[m].parent != Some(n) || !s.calls[n].phase.Probing? ==> Finish(s, m, e).calls[n] == s.calls[n]
    ensures s.calls[m].parent == Some(n) && s.calls[n].phase.Probing? ==>
      Finish(s, m, e).calls[n] == ProbeOver(s, n, e.outcome).calls[n]
  {}

  lemma ProberEnds(s: State, m: nat, e: End, n: nat)
    requires m in s.calls && n in s.calls && m != n && s.calls[m].parent == Some(n) && s.calls[n].phase.Probing?
    requires s.calls[m].event == "cpu.status"
    ensures n in Finish(s, m, e).calls && ProbeEnds(Finish(s, m, e), n, s.calls[n], Finish(s, m, e).calls[n])
  {
    FinishTouches(s, m, e, n);
    if e.outcome.Returned? {
      assert ProbeReturned(Finish(s, m, e).calls[m], n, e.outcome.frame.stepping);
    }
  }

  lemma FinishMove(s: State, a: Action, m: nat, e: End, n: nat)
    requires m in s.calls && Unfinished(s.calls[m]) && s.calls[m].parent != Some(m) && n in s.calls
    requires s.calls[m].parent.Some? ==> s.calls[m].event == "cpu.status"
    ensures n in Finish(s, m, e).calls && Moves(s, a, Finish(s, m, e), n, s.calls[n], Finish(s, m, e).calls[n])
  {
    if n == m {
      assert Ends(s.calls[m], Finish(s, m, e).calls[m]);
    } else {
      FinishTouches(s, m, e, n);
      if s.calls[m].parent == Some(n) && s.calls[n].phase.Probing? { ProberEnds(s, m, e, n); }
    }
  }

  lemma FinishMoves(s: State, a: Action, m: nat, e: End)
    requires m in s.calls && Unfinished(s.calls[m]) && !a.Receive? && CallOk(s, m)
    ensures CallsMove(s, a, Finish(s, m, e))
  {
    FinishKeepsRoster(s, m, e);
    forall n | n in s.calls ensures Moves(s, a, Finish(s, m, e), n, s.calls[n], Finish(s, m, e).calls[n]) {
      FinishMove(s, a, m, e, n);
    }
  }

  lemma RespondMoves(s: State, f: Frame, now: real)
    requires Matched(s, f) && EntryOk(s, f.ticket.value)
    ensures CallsMove(s, Receive(Data(f), now), Respond(s, f))
  {}

  lemma UnmatchedMoves(s: State, f: Frame, now: real)
    requires !Matched(s, f)
    ensures CallsMove(s, Receive(Data(f), now), Unmatched(s, f, now))
  {
    assert Filed(s, f).calls == s.calls;
    assert Filed(NoteBroadcast(s, f.event, now), f).calls == NoteBroadcast(s, f.event, now).calls;
  }

  lemma FailAllMoves(s: State, a: Action, error: string, receiving: bool)
    requires !a.Receive?
    ensures CallsMove(s, a, FailAll(s, error).(receiving := receiving))
  {
    var s' := FailAll(s, error).(receiving := receiving);
    forall n | n in s.calls ensures Moves(s, a, s', n, s.calls[n], s'.calls[n]) {
      assert s'.calls[n] == s.calls[n] || s'.calls[n] == s.calls[n].(future := Failure(error));
    }
  }

  lemma ProbeUnsentMoves(s: State, n: nat, cancelled: bool)
    requires Enabled(s, ProbeUnsent(n, cancelled))
    ensures CallsMove(s, ProbeUnsent(n, cancelled), Step(s, ProbeUnsent(n, cancelled)))
  {}

  lemma StartMoves(s: State, event: string, parent: Option<nat>)
    requires s.counter + 1 !in s.calls
    ensures CallsMove(s, Begin(event, parent), Start(s, event, parent))
  {}

  lemma WakeMoves(s: State, n: nat, shown: string)
    requires Enabled(s, Wake(n, shown)) && CallOk(s, n)
    ensures CallsMove(s, Wake(n, shown), WakeUp(s, n, shown))
  {
    if s.calls[n].stop == Some(Deadline) && !s.probing {
    } else {
      FinishMoves(s, Wake(n, shown), n, EndOf(s.calls[n], shown));
    }
  }

  lemma SimpleMoves(s: State, a: Action)
    requires Enabled(s, a)
    requires (a.Sent? || a.Interrupt? || a.LoopExit? || a.Reconnect? || a.FireAndForget? || a.TakeEvent?)
    ensures CallsMove(s, a, Step(s, a))
  {}

  lemma DeliverMoves(s: State, w: Wire, now: real)
    requires Inv(s)
    ensures CallsMove(s, Receive(w, now), Deliver(s, w, now))
  {
    match w
    case Malformed =>
    case Data(f) =>
      if Matched(s, f) {
        assert EntryOk(s, f.ticket.value);
        RespondMoves(s, f, now);
      } else {
        UnmatchedMoves(s, f, now);
      }
  }

  lemma StepMoves(s: State, a: Action)
    requires Inv(s) && Enabled(s, a)
    ensures CallsMove(s, a, Step(s, a))
  {
    match a
    case Begin(event, parent) =>
      CounterUnused(s);
      StartMoves(s, event, parent);
    case SendFail(n, cancelled, error) =>
      assert CallOk(s, n);
      FinishMoves(s, a, n, EndOfSend(cancelled, error));
    case Receive(w, now) => DeliverMoves(s, w, now);
    case Wake(n, shown) =>
      assert CallOk(s, n);
      WakeMoves(s, n, shown);
    case ProbeUnsent(n, cancelled) => ProbeUnsentMoves(s, n, cancelled);
    case Disconnect => FailAllMoves(s, a, "PPSSPP WebSocket disconnected", false);
    case CloseFlush => FailAllMoves(s, a, "WebSocket closed", false);
    case _ => SimpleMoves(s, a);
  }

  /** Which calls exist, which records are in the ring, which ticket is next. */
  predicate SameRoster(s: State, s': State) {
    s'.calls.Keys == s.calls.Keys && s'.ring == s.ring && s'.counter == s.counter
  }

  lemma FinishKeepsRoster(s: State, m: nat, e: End)
    requires m in s.calls
    ensures SameRoster(s, Finish(s, m, e))
  {}

  lemma DeliverKeepsRoster(s: State, w: Wire, now: real)
    ensures SameRoster(s, Deliver(s, w, now))
  {
    if w.Data? && !Matched(s, w.frame) {
      var f := w.frame;
      assert SameRoster(s, NoteBroadcast(s, f.event, now));
      assert SameRoster(s, Filed(s, f));
      assert SameRoster(NoteBroadcast(s, f.event, now), Filed(NoteBroadcast(s, f.event, now), f));
    }
  }

  lemma WakeKeepsRoster(s: State, m: nat, shown: string)
    requires m in s.calls
    ensures SameRoster(s, WakeUp(s, m, shown))
  {
    FinishKeepsRoster(s, m, EndOf(s.calls[m], shown));
  }

  /** Only beginning a call and sending without waiting change the roster. */
  lemma RosterStep(s: State, a: Action)
    requires Enabled(s, a) && !a.Begin? && !a.FireAndForget?
    ensures SameRoster(s, Step(s, a))
  {
    match a
    case SendFail(n, cancelled, error) => FinishKeepsRoster(s, n, EndOfSend(cancelled, error));
    case Receive(w, now) => DeliverKeepsRoster(s, w, now);
    case Wake(n, shown) => WakeKeepsRoster(s, n, shown);
    case _ =>
  }

  /** A call appears only by being begun, under the next number, with a fresh record. */
  lemma NewCall(s: State, a: Action, n: nat)
    requires Enabled(s, a) && n in Step(s, a).calls && n !in s.calls
    ensures a.Begin? && n == s.counter + 1
    ensures Step(s, a).calls[n] == Call(a.event, a.parent, Sending, Unresolved, None, Fresh)
  {
    if !a.Begin? && !a.FireAndForget? { RosterStep(s, a); }
  }

  lemma RingStep(s: State, a: Action)
    requires Enabled(s, a)
    ensures Step(s, a).ring == if a.Begin? then Put(RING_CAPACITY, s.ring, s.counter + 1) else s.ring
  {
    if !a.Begin? && !a.FireAndForget? { RosterStep(s, a); }
  }

  lemma CounterStep(s: State, a: Action)
    requires Enabled(s, a)
    ensures Step(s, a).counter == if a.Begin? || a.FireAndForget? then s.counter + 1 else s.counter
  {
    if !a.Begin? && !a.FireAndForget? { RosterStep(s, a); }
  }
}
