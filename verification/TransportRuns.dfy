/** Properties of whole transport runs: any interleaving of calls, frames, timers, cancellations,
  * send failures, disconnects, closes and reconnects. */
module TransportRuns {
  import opened Text
  import opened Transport
  import opened TransportInvariant
  import opened TransportMoves

  ghost predicate Linked(states: seq<State>, acts: seq<Action>, i: nat)
    requires |states| == |acts| + 1 && i < |acts|
  {
    Enabled(states[i], acts[i]) && states[i + 1] == Step(states[i], acts[i])
  }

  ghost predicate Execution(states: seq<State>, acts: seq<Action>) {
    && |states| == |acts| + 1
    && states[0] == Init
    && forall i | 0 <= i < |acts| :: Linked(states, acts, i)
  }

  lemma {:induction false} InvariantAlways(states: seq<State>, acts: seq<Action>, k: nat)
    requires Execution(states, acts) && k < |states|
    ensures Inv(states[k])
  {
    if k > 0 {
      InvariantAlways(states, acts, k - 1);
      assert Linked(states, acts, k - 1);
      StepKeepsInv(states[k - 1], acts[k - 1]);
    }
  }

  // ---------- what one step never undoes ----------

  /** Identity, a resolved future, an outcome and a settled record survive every step. */
  ghost predicate Lasting(c: Call, c': Call) {
    && c'.event == c.event && c'.parent == c.parent
    && (!c.future.Unresolved? ==> c'.future == c.future)
    && (c.phase.Done? ==> c'.phase == c.phase)
    && (c.record.settled ==> c'.record == c.record)
  }

  /** A legal move of an invariant-abiding call undoes none of this. */
  lemma MoveLasts(s: State, a: Action, s': State, n: nat, c': Call)
    requires n in s.calls && CallOk(s, n) && Moves(s, a, s', n, s.calls[n], c')
    ensures Lasting(s.calls[n], c')
  {}

  lemma StepLasts(s: State, a: Action, n: nat)
    requires Inv(s) && Enabled(s, a) && n in s.calls
    ensures n in Step(s, a).calls && Lasting(s.calls[n], Step(s, a).calls[n])
  {
    StepMoves(s, a);
    var s' := Step(s, a);
    assert CallOk(s, n) && Moves(s, a, s', n, s.calls[n], s'.calls[n]);
    MoveLasts(s, a, s', n, s'.calls[n]);
  }

  lemma {:induction false} RunLasts(states: seq<State>, acts: seq<Action>, i: nat, j: nat, n: nat)
    requires Execution(states, acts) && i <= j < |states| && n in states[i].calls
    ensures n in states[j].calls && Lasting(states[i].calls[n], states[j].calls[n])
    decreases j - i
  {
    if i < j {
      InvariantAlways(states, acts, i);
      assert Linked(states, acts, i);
      StepLasts(states[i], acts[i], n);
      RunLasts(states, acts, i + 1, j, n);
    }
  }

  lemma {:induction false} CounterGrows(states: seq<State>, acts: seq<Action>, i: nat, j: nat)
    requires Execution(states, acts) && i <= j < |states|
    ensures states[i].counter <= states[j].counter
    decreases j - i
  {
    if i < j {
      assert Linked(states, acts, i);
      CounterStep(states[i], acts[i]);
      CounterGrows(states, acts, i + 1, j);
    }
  }

  // ---------- tickets, futures, outcomes ----------

  predicate IssuesTicket(a: Action) { a.Begin? || a.FireAndForget? }

  /** No two sends of a run carry the same ticket: the counter survives closes and reconnects. */
  lemma TicketsNeverReused(states: seq<State>, acts: seq<Action>, i: nat, j: nat)
    requires Execution(states, acts) && i < j < |acts|
    requires IssuesTicket(acts[i]) && IssuesTicket(acts[j])
    ensures Ticket(states[i].counter + 1) != Ticket(states[j].counter + 1)
  {
    assert Linked(states, acts, i);
    CounterStep(states[i], acts[i]);
    CounterGrows(states, acts, i + 1, j);
    if Ticket(states[i].counter + 1) == Ticket(states[j].counter + 1) {
      TicketInjective(states[i].counter + 1, states[j].counter + 1);
    }
  }

  /** In every reachable state: a table key names exactly one call and that call is unfinished, a
    * finished call has no entry left, every unanswered unfinished call can still be answered, and
    * at most one probe is in flight, one level deep. */
  lemma PendingTableExact(states: seq<State>, acts: seq<Action>, k: nat)
    requires Execution(states, acts) && k < |states|
    ensures forall t | t in states[k].pending ::
      var n := states[k].pending[t];
      t == Ticket(n) && n in states[k].calls && Unfinished(states[k].calls[n]) && !states[k].calls[n].future.Answer?
    ensures forall n | n in states[k].calls && !Unfinished(states[k].calls[n]) :: Ticket(n) !in states[k].pending
    ensures forall n |
      n in states[k].calls && Unfinished(states[k].calls[n]) && states[k].calls[n].future.Unresolved? ::
      Ticket(n) in states[k].pending && states[k].pending[Ticket(n)] == n
    ensures forall m, n | m in states[k].calls && n in states[k].calls
      && states[k].calls[m].parent.Some? && states[k].calls[n].parent.Some?
      && !states[k].calls[m].phase.Done? && !states[k].calls[n].phase.Done? :: m == n
    ensures forall n | n in states[k].calls && states[k].calls[n].phase.Probing? ::
      states[k].probing && states[k].calls[n].parent.None?
  {
    InvariantAlways(states, acts, k);
    var s := states[k];
    forall t | t in s.pending
      ensures t == Ticket(s.pending[t]) && s.pending[t] in s.calls && Unfinished(s.calls[s.pending[t]])
              && !s.calls[s.pending[t]].future.Answer?
    { assert EntryOk(s, t); }
    forall n | n in s.calls && !Unfinished(s.calls[n]) ensures Ticket(n) !in s.pending { FinishedLeavesTable(s, n); }
    forall n | n in s.calls ensures CallOk(s, n) {}
    forall m, n | m in s.calls && n in s.calls && s.calls[m].parent.Some? && s.calls[n].parent.Some?
      && !s.calls[m].phase.Done? && !s.calls[n].phase.Done?
      ensures m == n
    {
      assert CallOk(s, m) && CallOk(s, n);
      assert s.calls[m].parent.value == s.calls[n].parent.value;
    }
  }

  /** Closing and a detected disconnect leave the table empty and no unresolved call in it behind. */
  lemma CloseFailsEveryWaiter(s: State, a: Action)
    requires Inv(s) && Enabled(s, a) && (a.CloseFlush? || a.Disconnect?)
    ensures Step(s, a).pending == map[]
    ensures forall n | n in s.calls && Unfinished(s.calls[n]) :: !Step(s, a).calls[n].future.Unresolved?
  {
    var s' := Step(s, a);
    forall n | n in s.calls && Unfinished(s.calls[n]) ensures !s'.calls[n].future.Unresolved? {
      assert CallOk(s, n);
      if s.calls[n].future.Unresolved? { assert s.pending[Ticket(n)] in s.pending.Values; }
    }
  }

  /** What can end the wait of an unanswered call: a frame with its ticket, a close or a detected
    * disconnect, its own timer or cancellation, or its own send failing. */
  predicate EndsWait(a: Action, n: nat) {
    match a
    case Receive(Data(f), _) => f.ticket == Some(Ticket(n))
    case CloseFlush => true
    case Disconnect => true
    case Interrupt(m, _) => m == n
    case SendFail(m, _, _) => m == n
    case _ => false
  }

  lemma OtherFinish(s: State, m: nat, e: End, n: nat)
    requires m in s.calls && n in s.calls && m != n && Unfinished(s.calls[n])
    ensures n in Finish(s, m, e).calls && Finish(s, m, e).calls[n] == s.calls[n]
  {}

  predicate StillWaits(s: State, n: nat) { n in s.calls && Unfinished(s.calls[n]) && s.calls[n].future.Unresolved? }

  lemma OtherResponse(s: State, f: Frame, n: nat)
    requires Matched(s, f) && EntryOk(s, f.ticket.value) && StillWaits(s, n) && f.ticket != Some(Ticket(n))
    ensures StillWaits(Respond(s, f), n)
  {}

  lemma UnmatchedWaits(s: State, f: Frame, now: real, n: nat)
    requires StillWaits(s, n)
    ensures StillWaits(Unmatched(s, f, now), n)
  {
    assert Filed(s, f).calls == s.calls;
    assert Filed(NoteBroadcast(s, f.event, now), f).calls == NoteBroadcast(s, f.event, now).calls;
  }

  lemma OtherWake(s: State, m: nat, shown: string, n: nat)
    requires Enabled(s, Wake(m, shown)) && StillWaits(s, n) && s.calls[n].stop.None?
    ensures StillWaits(WakeUp(s, m, shown), n)
  {
    if s.calls[m].stop != Some(Deadline) || s.probing { OtherFinish(s, m, EndOf(s.calls[m], shown), n); }
  }

  lemma SimpleWaits(s: State, a: Action, n: nat)
    requires Enabled(s, a) && StillWaits(s, n) && !EndsWait(a, n) && (a.Begin? ==> s.counter + 1 !in s.calls)
    requires !a.Receive? && !a.Wake? && !a.SendFail?
    ensures StillWaits(Step(s, a), n)
  {}

  lemma WaitGoesOn(s: State, a: Action, n: nat)
    requires Inv(s) && Enabled(s, a) && StillWaits(s, n) && !EndsWait(a, n)
    ensures StillWaits(Step(s, a), n)
  {
    assert forall m | m in s.calls :: CallOk(s, m);
    match a
    case SendFail(m, cancelled, error) => OtherFinish(s, m, EndOfSend(cancelled, error), n);
    case Wake(m, shown) => OtherWake(s, m, shown, n);
    case Receive(Malformed, now) =>
    case Receive(Data(f), now) =>
      if Matched(s, f) {
        assert EntryOk(s, f.ticket.value);
        OtherResponse(s, f, n);
      } else {
        UnmatchedWaits(s, f, now, n);
      }
    case _ =>
      SimpleWaits(s, a, n);
  }

  /** Leaving the loop because the socket is no longer open fails nobody, and neither does anything else
    * but `EndsWait`: an unanswered call stays in the table, unanswered, however long the run goes on,
    * until a frame with its ticket, a close or disconnect, its own timer or cancellation, or its own send
    * failing. */
  lemma {:induction false} LoopExitStrandsWaiters(states: seq<State>, acts: seq<Action>, i: nat, j: nat, n: nat)
    requires Execution(states, acts) && i <= j < |states|
    requires StillWaits(states[i], n)
    requires forall k | i <= k < j :: !EndsWait(acts[k], n)
    ensures StillWaits(states[j], n)
    ensures Ticket(n) in states[j].pending && states[j].pending[Ticket(n)] == n
    decreases j - i
  {
    if i < j {
      LoopExitStrandsWaiters(states, acts, i, j - 1, n);
      InvariantAlways(states, acts, j - 1);
      assert Linked(states, acts, j - 1);
      WaitGoesOn(states[j - 1], acts[j - 1], n);
    }
    InvariantAlways(states, acts, j);
    assert CallOk(states[j], n);
  }

  /** Once resolved a future never changes, and once finished a call keeps its outcome. */
  lemma ResolvedOnce(states: seq<State>, acts: seq<Action>, i: nat, j: nat, n: nat)
    requires Execution(states, acts) && i <= j < |states| && n in states[i].calls
    ensures n in states[j].calls
    ensures !states[i].calls[n].future.Unresolved? ==> states[j].calls[n].future == states[i].calls[n].future
    ensures states[i].calls[n].phase.Done? ==> states[j].calls[n].phase == states[i].calls[n].phase
    ensures states[i].calls[n].record.settled ==> states[j].calls[n].record == states[i].calls[n].record
  {
    RunLasts(states, acts, i, j, n);
  }

  lemma MoveAnswers(s: State, a: Action, s': State, n: nat, c': Call, f: Frame)
    requires n in s.calls && Moves(s, a, s', n, s.calls[n], c') && c'.future == Answer(f)
    ensures s.calls[n].future == Answer(f) || Answered(s, a, n, f)
  {}

  lemma AnswerStep(s: State, a: Action, n: nat, f: Frame)
    requires Inv(s) && Enabled(s, a) && n in Step(s, a).calls && Step(s, a).calls[n].future == Answer(f)
    ensures n in s.calls
    ensures s.calls[n].future == Answer(f) || Answered(s, a, n, f)
  {
    if n !in s.calls { NewCall(s, a, n); }
    StepMoves(s, a);
    var s' := Step(s, a);
    assert Moves(s, a, s', n, s.calls[n], s'.calls[n]);
    MoveAnswers(s, a, s', n, s'.calls[n], f);
  }

  /** An answer a call holds it held one step earlier, or was given by that step. */
  lemma HeldOrGiven(states: seq<State>, acts: seq<Action>, k: nat, n: nat, f: Frame)
    requires Execution(states, acts) && k < |states| && n in states[k].calls && states[k].calls[n].future == Answer(f)
    ensures k > 0 && n in states[k - 1].calls
    ensures states[k - 1].calls[n].future == Answer(f) || Answered(states[k - 1], acts[k - 1], n, f)
  {
    InvariantAlways(states, acts, k - 1);
    assert Linked(states, acts, k - 1);
    AnswerStep(states[k - 1], acts[k - 1], n, f);
  }

  lemma {:induction false} HeldWasGiven(states: seq<State>, acts: seq<Action>, k: nat, n: nat, f: Frame)
    requires Execution(states, acts) && k < |states| && n in states[k].calls && states[k].calls[n].future == Answer(f)
    ensures exists m | 0 <= m < k :: Answered(states[m], acts[m], n, f)
  {
    HeldOrGiven(states, acts, k, n, f);
    if !Answered(states[k - 1], acts[k - 1], n, f) { HeldWasGiven(states, acts, k - 1, n, f); }
  }

  lemma ReturnedIsHeld(states: seq<State>, acts: seq<Action>, k: nat, n: nat, f: Frame)
    requires Execution(states, acts) && k < |states| && n in states[k].calls
    requires states[k].calls[n].phase == Done(Returned(f))
    ensures states[k].calls[n].future == Answer(f)
  {
    InvariantAlways(states, acts, k);
    assert CallOk(states[k], n);
  }

  /** A call that returned `f` was handed exactly `f`, under its own ticket, while it was waiting. */
  lemma ReturnsOnlyItsAnswer(states: seq<State>, acts: seq<Action>, k: nat, n: nat, f: Frame)
    requires Execution(states, acts) && k < |states| && n in states[k].calls
    requires states[k].calls[n].future == Answer(f) || states[k].calls[n].phase == Done(Returned(f))
    ensures exists m | 0 <= m < k :: Answered(states[m], acts[m], n, f)
  {
    if states[k].calls[n].phase == Done(Returned(f)) { ReturnedIsHeld(states, acts, k, n, f); }
    HeldWasGiven(states, acts, k, n, f);
  }

  lemma FinishLogsNothing(s: State, n: nat, e: End)
    requires n in s.calls
    ensures Finish(s, n, e).mislogged == s.mislogged
  {}

  lemma DeliverLogs(s: State, w: Wire, now: real)
    requires Inv(s)
    ensures Deliver(s, w, now).mislogged == s.mislogged +
      match w
      case Malformed => 1
      case Data(f) =>
        if Matched(s, f) && f.event == "error" && f.ticket.value in s.pending && s.pending[f.ticket.value] in s.calls
          && s.calls[s.pending[f.ticket.value]].future.Dead? then 1 else 0
  {
    if w.Data? && Matched(s, w.frame) { assert EntryOk(s, w.frame.ticket.value); }
  }

  /** The comment in the loop says a late reply to a cancelled call is dropped rather than logged as
    * malformed. The code does so for every reply except an "error" event; that and what is malformed is all
    * that is ever logged so, each once. */
  lemma MisloggedExactly(s: State, a: Action)
    requires Inv(s) && Enabled(s, a)
    ensures Step(s, a).mislogged == s.mislogged +
      if !a.Receive? then 0
      else match a.wire
        case Malformed => 1
        case Data(f) =>
          if Matched(s, f) && f.event == "error" && s.pending[f.ticket.value] in s.calls
            && s.calls[s.pending[f.ticket.value]].future.Dead? then 1 else 0
  {
    match a
    case SendFail(n, cancelled, error) => FinishLogsNothing(s, n, EndOfSend(cancelled, error));
    case Wake(n, shown) => FinishLogsNothing(s, n, EndOf(s.calls[n], shown));
    case Receive(w, now) => DeliverLogs(s, w, now);
    case _ =>
  }

  /** One more enabled action makes a longer run. */
  lemma Extend(states: seq<State>, acts: seq<Action>, a: Action) returns (states': seq<State>, acts': seq<Action>)
    requires Execution(states, acts) && Enabled(states[|acts|], a)
    ensures Execution(states', acts') && |acts'| == |acts| + 1
    ensures acts' == acts + [a] && states'[|acts'|] == Step(states[|acts|], a)
  {
    states', acts' := states + [Step(states[|acts|], a)], acts + [a];
    forall i | 0 <= i < |acts'| ensures Linked(states', acts', i) {
      if i < |acts| { assert Linked(states, acts, i); }
    }
  }

  /** Begin a call as the first action on a connection, and send it. */
  lemma FirstCall(event: string) returns (states: seq<State>, acts: seq<Action>)
    ensures Execution(states, acts)
    ensures states[|acts|] ==
      Init.(counter := 1, calls := map[1 := Call(event, None, Waiting, Unresolved, None, Fresh)],
            pending := map[Ticket(1) := 1], ring := [1], receiving := true)
    ensures forall i | 0 <= i < |acts| :: !acts[i].Receive?
  {
    states, acts := [Init], [];
    states, acts := Extend(states, acts, Reconnect);
    states, acts := Extend(states, acts, Begin(event, None));
    states, acts := Extend(states, acts, Sent(1));
  }

  /** Such a reply does arrive: connect, call, send, cancel the caller, receive the error event. */
  lemma MisloggedHappens() returns (states: seq<State>, acts: seq<Action>)
    ensures Execution(states, acts) && states[|acts|].mislogged == 1
    ensures forall i | 0 <= i < |acts| && acts[i].Receive? :: acts[i].wire.Data?
  {
    states, acts := FirstCall("memory.read");
    states, acts := Extend(states, acts, Interrupt(1, Cancellation));
    assert Ticket(1)[0] == 't';
    states, acts := Extend(states, acts, Receive(Data(Frame(Some(Ticket(1)), "error", None, "late")), 0.0));
  }
}
