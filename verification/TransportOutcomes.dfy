/** How every call of a run ends: exactly which frames, timers, cancellations and failures decide it. */
module TransportOutcomes {
  import opened Text
  import opened Queues
  import opened Transport
  import opened TransportInvariant
  import opened TransportMoves
  import opened TransportRuns

  // ---------- one step, one call ----------

  /** What a step does to the future of a call that still waits. */
  function Resolved(a: Action, n: nat): Option<Future> {
    match a
    case Receive(Data(f), _) =>
      if f.ticket != Some(Ticket(n)) then None
      else if f.event == "error" then Some(Failure(f.body))
      else Some(Answer(f))
    case CloseFlush => Some(Failure("WebSocket closed"))
    case Disconnect => Some(Failure("PPSSPP WebSocket disconnected"))
    case Interrupt(m, _) => if m == n then Some(Dead) else None
    case _ => None
  }

  function FutureAfter(s: State, a: Action, n: nat): Future
    requires n in s.calls
  {
    if StillWaits(s, n) && Resolved(a, n).Some? then Resolved(a, n).value else s.calls[n].future
  }

  lemma RespondFuture(s: State, f: Frame, n: nat)
    requires Matched(s, f) && EntryOk(s, f.ticket.value) && n in s.calls && CallOk(s, n)
    ensures n in Respond(s, f).calls
    ensures Respond(s, f).calls[n].future ==
      if StillWaits(s, n) && f.ticket == Some(Ticket(n))
      then (if f.event == "error" then Failure(f.body) else Answer(f)) else s.calls[n].future
  {
    if StillWaits(s, n) && f.ticket == Some(Ticket(n)) { assert s.pending[Ticket(n)] == n; }
  }

  lemma UnmatchedFuture(s: State, f: Frame, now: real, n: nat)
    requires n in s.calls && CallOk(s, n) && !Matched(s, f)
    ensures n in Unmatched(s, f, now).calls && Unmatched(s, f, now).calls[n].future == s.calls[n].future
    ensures StillWaits(s, n) ==> f.ticket != Some(Ticket(n))
  {
    assert Filed(s, f).calls == s.calls;
    assert Filed(NoteBroadcast(s, f.event, now), f).calls == NoteBroadcast(s, f.event, now).calls;
    assert Ticket(n)[0] == 't';
  }

  lemma FailAllFuture(s: State, error: string, n: nat)
    requires Inv(s) && n in s.calls
    ensures n in FailAll(s, error).calls
    ensures FailAll(s, error).calls[n].future == if StillWaits(s, n) then Failure(error) else s.calls[n].future
  {
    assert CallOk(s, n);
    if StillWaits(s, n) { assert s.pending[Ticket(n)] in s.pending.Values; }
    if n in s.pending.Values {
      var t :| t in s.pending && s.pending[t] == n;
      assert EntryOk(s, t);
    }
  }

  lemma FinishFuture(s: State, m: nat, e: End, n: nat)
    requires m in s.calls && n in s.calls && CallOk(s, m)
    ensures n in Finish(s, m, e).calls && Finish(s, m, e).calls[n].future == s.calls[n].future
    ensures Finish(s, m, e).calls[n].stop == s.calls[n].stop
  {}

  lemma SimpleFuture(s: State, a: Action, n: nat)
    requires Enabled(s, a) && n in s.calls && (a.Begin? ==> s.counter + 1 !in s.calls)
    requires !a.Receive? && !a.SendFail? && !a.Wake? && !a.CloseFlush? && !a.Disconnect?
    ensures n in Step(s, a).calls && Step(s, a).calls[n].future == FutureAfter(s, a, n)
  {}

  lemma WakeFuture(s: State, m: nat, shown: string, n: nat)
    requires m in s.calls && n in s.calls && CallOk(s, m)
    ensures n in WakeUp(s, m, shown).calls && WakeUp(s, m, shown).calls[n].future == s.calls[n].future
    ensures WakeUp(s, m, shown).calls[n].stop == s.calls[n].stop
  {
    FinishFuture(s, m, EndOf(s.calls[m], shown), n);
  }

  lemma DeliverFuture(s: State, w: Wire, now: real, n: nat)
    requires Inv(s) && n in s.calls
    ensures n in Deliver(s, w, now).calls
    ensures Deliver(s, w, now).calls[n].future == FutureAfter(s, Receive(w, now), n)
  {
    assert CallOk(s, n);
    if w.Data? {
      if Matched(s, w.frame) {
        assert EntryOk(s, w.frame.ticket.value);
        RespondFuture(s, w.frame, n);
      } else {
        UnmatchedFuture(s, w.frame, now, n);
      }
    }
  }

  /** The future of a call changes exactly while it still waits, by a frame with its ticket, a close or
    * detected disconnect, or its own timer or cancellation. */
  lemma FutureStep(s: State, a: Action, n: nat)
    requires Inv(s) && Enabled(s, a) && n in s.calls
    ensures n in Step(s, a).calls && Step(s, a).calls[n].future == FutureAfter(s, a, n)
  {
    if a.SendFail? || a.Wake? {
      assert CallOk(s, a.id);
      if a.Wake? {
        WakeFuture(s, a.id, a.shown, n);
      } else {
        FinishFuture(s, a.id, EndOfSend(a.cancelled, a.error), n);
      }
    } else if a.Receive? {
      DeliverFuture(s, a.wire, a.now, n);
    } else if a.CloseFlush? || a.Disconnect? {
      FailAllFuture(s, if a.CloseFlush? then "WebSocket closed" else "PPSSPP WebSocket disconnected", n);
    } else {
      CounterUnused(s);
      SimpleFuture(s, a, n);
    }
  }

  lemma DeliverKeepsStop(s: State, w: Wire, now: real, n: nat)
    requires n in s.calls
    ensures n in Deliver(s, w, now).calls
    ensures Deliver(s, w, now).calls[n].stop == s.calls[n].stop && Deliver(s, w, now).calls[n].phase == s.calls[n].phase
    ensures Deliver(s, w, now).calls[n].record.settled == s.calls[n].record.settled
  {
    if w.Data? && !Matched(s, w.frame) {
      var f := w.frame;
      assert Filed(s, f).calls == s.calls;
      assert Filed(NoteBroadcast(s, f.event, now), f).calls == NoteBroadcast(s, f.event, now).calls;
    }
  }

  lemma SimpleStop(s: State, a: Action, n: nat)
    requires Enabled(s, a) && n in s.calls && (a.Begin? ==> s.counter + 1 !in s.calls)
    requires !a.Receive? && !a.SendFail? && !a.Wake?
    ensures n in Step(s, a).calls
    ensures Step(s, a).calls[n].stop == if a.Interrupt? && a.id == n then Some(a.why) else s.calls[n].stop
  {}

  /** The last timer or cancellation to reach a call is the one it carries. */
  lemma StopStep(s: State, a: Action, n: nat)
    requires Inv(s) && Enabled(s, a) && n in s.calls
    ensures n in Step(s, a).calls
    ensures Step(s, a).calls[n].stop == if a.Interrupt? && a.id == n then Some(a.why) else s.calls[n].stop
  {
    if a.SendFail? || a.Wake? {
      assert CallOk(s, a.id);
      if a.Wake? {
        WakeFuture(s, a.id, a.shown, n);
      } else {
        FinishFuture(s, a.id, EndOfSend(a.cancelled, a.error), n);
      }
    } else if a.Receive? {
      DeliverKeepsStop(s, a.wire, a.now, n);
    } else {
      CounterUnused(s);
      SimpleStop(s, a, n);
    }
  }

  // ---------- how a step can end a call ----------

  predicate Woken(a: Action, n: nat) { a.Wake? && a.id == n }

  predicate Unsent(a: Action, n: nat) { a.SendFail? && a.id == n }

  /** The record of a call that returned or raised says so. */
  predicate RecordTells(c: Call) {
    c.phase.Done? ==>
      && (c.phase.outcome.Returned? ==> c.record.error == "" && !c.record.timedOut)
      && (c.phase.outcome.Raised? ==> c.record.error == c.phase.outcome.error && !c.record.timedOut)
  }

  /** Phase and settlement of a call that is not in its probe. */
  ghost predicate EndStep(c: Call, c': Call, a: Action, n: nat, probing: bool) {
    if Woken(a, n) then
      if c.stop == Some(Deadline) && !probing then c'.phase.Probing? && !c'.record.settled
      else c'.record.settled && RecordTells(c') && c'.phase == Done(
        match c.stop
        case Some(Deadline) => TimedOut
        case Some(Cancellation) => Aborted
        case None => if c.future.Answer? then Returned(c.future.frame)
                     else if c.future.Failure? then Raised(c.future.error) else Aborted)
    else if Unsent(a, n) then
      c'.record.settled && RecordTells(c') && c'.phase == Done(if a.cancelled then Aborted else Raised(a.error))
    else c'.record.settled == c.record.settled && (c'.phase == c.phase || (c.phase.Sending? && c'.phase.Waiting?))
  }

  lemma FinishPhase(s: State, m: nat, e: End, n: nat)
    requires m in s.calls && n in s.calls && s.calls[m].parent != Some(m)
    ensures n in Finish(s, m, e).calls
    ensures m == n ==> Finish(s, m, e).calls[n].phase == Done(e.outcome)
    ensures m == n ==> Finish(s, m, e).calls[n].record == Settle(s.calls[n].record, e.timedOut, e.error, None)
    ensures m != n && !s.calls[n].phase.Probing? ==> Finish(s, m, e).calls[n] == s.calls[n]
  {}

  lemma WakePhase(s: State, m: nat, shown: string, n: nat)
    requires m in s.calls && n in s.calls && s.calls[m].parent != Some(m) && !s.calls[n].phase.Probing?
    requires !s.calls[n].record.settled || n != m
    ensures n in WakeUp(s, m, shown).calls
    ensures EndStep(s.calls[n], WakeUp(s, m, shown).calls[n], Wake(m, shown), n, s.probing)
  {
    FinishPhase(s, m, EndOf(s.calls[m], shown), n);
  }

  lemma SimplePhase(s: State, a: Action, n: nat)
    requires Enabled(s, a) && n in s.calls && (a.Begin? ==> s.counter + 1 !in s.calls) && !s.calls[n].phase.Probing?
    requires !a.Receive? && !a.SendFail? && !a.Wake?
    ensures n in Step(s, a).calls && EndStep(s.calls[n], Step(s, a).calls[n], a, n, s.probing)
  {}

  lemma PhaseStep(s: State, a: Action, n: nat)
    requires Inv(s) && Enabled(s, a) && n in s.calls && !s.calls[n].phase.Probing?
    ensures n in Step(s, a).calls && EndStep(s.calls[n], Step(s, a).calls[n], a, n, s.probing)
  {
    if a.SendFail? || a.Wake? {
      assert CallOk(s, a.id);
      if a.Wake? {
        WakePhase(s, a.id, a.shown, n);
      } else {
        FinishPhase(s, a.id, EndOfSend(a.cancelled, a.error), n);
      }
    } else if a.Receive? {
      DeliverKeepsStop(s, a.wire, a.now, n);
    } else {
      CounterUnused(s);
      SimplePhase(s, a, n);
    }
  }

  lemma ProbeMove(s: State, a: Action, s': State, n: nat, c: Call, c': Call)
    requires Moves(s, a, s', n, c, c') && c.phase.Probing? && !c.record.settled
    ensures c'.phase.Probing? || (c'.phase == Done(TimedOut) && c'.record.settled)
      || (c'.phase == Done(Aborted) && !c'.record.settled)
  {}

  /** A probing call stays so, times out, or is aborted and left unsettled. */
  lemma ProbeStep(s: State, a: Action, n: nat)
    requires Inv(s) && Enabled(s, a) && n in s.calls && s.calls[n].phase.Probing?
    ensures n in Step(s, a).calls && !Woken(a, n) && !Unsent(a, n)
    ensures var c' := Step(s, a).calls[n];
      c'.phase.Probing? || (c'.phase == Done(TimedOut) && c'.record.settled)
      || (c'.phase == Done(Aborted) && !c'.record.settled)
  {
    assert CallOk(s, n);
    StepMoves(s, a);
    ProbeMove(s, a, Step(s, a), n, s.calls[n], Step(s, a).calls[n]);
  }

  // ---------- the tale of one call ----------

  predicate WasWoken(acts: seq<Action>, k: nat, n: nat)
    requires k <= |acts|
  {
    exists i | 0 <= i < k :: Woken(acts[i], n)
  }

  predicate WasUnsent(acts: seq<Action>, k: nat, n: nat)
    requires k <= |acts|
  {
    exists i | 0 <= i < k :: Unsent(acts[i], n)
  }

  /** The last timer or cancellation to reach the call during the first `k` actions. */
  function LastStop(acts: seq<Action>, k: nat, n: nat): Option<Stop>
    requires k <= |acts|
  {
    if k == 0 then None
    else if acts[k - 1].Interrupt? && acts[k - 1].id == n then Some(acts[k - 1].why)
    else LastStop(acts, k - 1, n)
  }

  /** Every failed send of the call, and there is one, ends it with `o`. */
  predicate UnsentAs(acts: seq<Action>, k: nat, n: nat, o: Outcome)
    requires k <= |acts|
  {
    && WasUnsent(acts, k, n)
    && forall i | 0 <= i < k && Unsent(acts[i], n) ::
         o == if acts[i].cancelled then Aborted else Raised(acts[i].error)
  }

  predicate WokenAs(c: Call, o: Outcome) {
    match o
    case Returned(f) => c.stop.None? && c.future == Answer(f)
    case Raised(e) => c.stop.None? && c.future == Failure(e)
    case TimedOut => c.stop == Some(Deadline)
    case Aborted => c.stop == Some(if c.record.settled then Cancellation else Deadline)
  }

  predicate Tale(acts: seq<Action>, k: nat, n: nat, c: Call)
    requires k <= |acts|
  {
    && c.stop == LastStop(acts, k, n)
    && match c.phase
       case Probing(_) => WasWoken(acts, k, n) && !WasUnsent(acts, k, n) && c.stop == Some(Deadline)
       case Done(o) =>
         RecordTells(c) &&
         ((WasWoken(acts, k, n) && !WasUnsent(acts, k, n) && WokenAs(c, o))
         || (!WasWoken(acts, k, n) && UnsentAs(acts, k, n, o) && c.record.settled))
       case _ => !WasWoken(acts, k, n) && !WasUnsent(acts, k, n)
  }

  predicate Untold(acts: seq<Action>, k: nat, n: nat)
    requires k <= |acts|
  {
    LastStop(acts, k, n).None? && !WasWoken(acts, k, n) && !WasUnsent(acts, k, n)
  }

  lemma TaleGrows(acts: seq<Action>, k: nat, n: nat)
    requires k < |acts|
    ensures WasWoken(acts, k + 1, n) <==> WasWoken(acts, k, n) || Woken(acts[k], n)
    ensures WasUnsent(acts, k + 1, n) <==> WasUnsent(acts, k, n) || Unsent(acts[k], n)
    ensures LastStop(acts, k + 1, n) ==
      if acts[k].Interrupt? && acts[k].id == n then Some(acts[k].why) else LastStop(acts, k, n)
    ensures forall o :: UnsentAs(acts, k, n, o) && !Unsent(acts[k], n) ==> UnsentAs(acts, k + 1, n, o)
    ensures !WasUnsent(acts, k, n) && Unsent(acts[k], n) ==>
      UnsentAs(acts, k + 1, n, if acts[k].cancelled then Aborted else Raised(acts[k].error))
  {}

  /** The facts about one call from which its tale goes on. */
  predicate Goes(c: Call, c': Call, a: Action, n: nat, probing: bool) {
    && c'.stop == (if a.Interrupt? && a.id == n then Some(a.why) else c.stop)
    && (!c.future.Unresolved? ==> c'.future == c.future)
    && (c.record.settled ==> c'.record == c.record)
    && (c.phase.Done? && (c.phase.outcome.Returned? || c.phase.outcome.Raised?) ==> c.record.settled)
    && (c.stop.None? ==> !c.future.Dead?)
    && (Woken(a, n) ==> c.phase.Waiting? && (c.stop.Some? || !c.future.Unresolved?))
    && (Unsent(a, n) ==> c.phase.Sending?)
    && (a.Interrupt? && a.id == n ==> c.phase.Waiting?)
    && (c.phase.Probing? ==>
         c'.phase.Probing? || (c'.phase == Done(TimedOut) && c'.record.settled)
         || (c'.phase == Done(Aborted) && !c'.record.settled))
  }

  lemma StepGoes(s: State, a: Action, n: nat)
    requires Inv(s) && Enabled(s, a) && n in s.calls
    ensures n in Step(s, a).calls && Goes(s.calls[n], Step(s, a).calls[n], a, n, s.probing)
    ensures !s.calls[n].phase.Probing? ==> EndStep(s.calls[n], Step(s, a).calls[n], a, n, s.probing)
  {
    StopStep(s, a, n);
    StepLasts(s, a, n);
    assert CallOk(s, n);
    if s.calls[n].phase.Probing? { ProbeStep(s, a, n); } else { PhaseStep(s, a, n); }
  }

  lemma TaleStep(acts: seq<Action>, k: nat, n: nat, c: Call, c': Call, probing: bool)
    requires k < |acts| && Tale(acts, k, n, c) && Goes(c, c', acts[k], n, probing)
    requires if c.phase.Probing? then !Woken(acts[k], n) && !Unsent(acts[k], n) else EndStep(c, c', acts[k], n, probing)
    ensures Tale(acts, k + 1, n, c')
  {
    TaleGrows(acts, k, n);
  }

  lemma {:induction false} TaleAlways(states: seq<State>, acts: seq<Action>, k: nat, n: nat)
    requires Execution(states, acts) && k < |states|
    ensures if n in states[k].calls then Tale(acts, k, n, states[k].calls[n]) else Untold(acts, k, n)
  {
    if k > 0 {
      var j := k - 1;
      TaleAlways(states, acts, j, n);
      InvariantAlways(states, acts, j);
      assert Linked(states, acts, j);
      TaleGrows(acts, j, n);
      if n in states[j].calls {
        StepGoes(states[j], acts[j], n);
        TaleStep(acts, j, n, states[j].calls[n], states[k].calls[n], states[j].probing);
      } else if n in states[k].calls {
        NewCall(states[j], acts[j], n);
      }
    }
  }

  // ---------- how every call ends ----------

  /** Among the first `k` actions is one that finds the call still waiting and resolves its future like that. */
  ghost predicate Given(states: seq<State>, acts: seq<Action>, k: nat, n: nat, future: Future)
    requires k <= |acts| < |states|
  {
    exists m | 0 <= m < k :: StillWaits(states[m], n) && Resolved(acts[m], n) == Some(future)
  }

  lemma GivenGrows(states: seq<State>, acts: seq<Action>, k: nat, n: nat, future: Future)
    requires k < |acts| < |states|
    ensures Given(states, acts, k + 1, n, future) <==>
      Given(states, acts, k, n, future) || (StillWaits(states[k], n) && Resolved(acts[k], n) == Some(future))
  {}

  lemma NotGivenYet(states: seq<State>, acts: seq<Action>, k: nat, n: nat, future: Future)
    requires Execution(states, acts) && k <= |acts| && n !in states[k].calls
    ensures !Given(states, acts, k, n, future)
  {
    forall m: nat | m <= k ensures n !in states[m].calls {
      if n in states[m].calls { RunLasts(states, acts, m, k, n); }
    }
  }

  /** A future holds exactly what it was given. */
  lemma {:induction false} HoldsExactly(states: seq<State>, acts: seq<Action>, k: nat, n: nat, future: Future)
    requires Execution(states, acts) && k < |states| && n in states[k].calls && !future.Unresolved?
    ensures states[k].calls[n].future == future <==> Given(states, acts, k, n, future)
  {
    if k > 0 {
      var j := k - 1;
      InvariantAlways(states, acts, j);
      assert Linked(states, acts, j);
      GivenGrows(states, acts, j, n, future);
      if n in states[j].calls {
        HoldsExactly(states, acts, j, n, future);
        FutureStep(states[j], acts[j], n);
      } else {
        NewCall(states[j], acts[j], n);
        NotGivenYet(states, acts, j, n, future);
      }
    }
  }

  /** The call was cancelled while it was sent, or its send raised this error. */
  predicate SendCancelled(acts: seq<Action>, k: nat, n: nat)
    requires k <= |acts|
  {
    exists i | 0 <= i < k :: Unsent(acts[i], n) && acts[i].cancelled
  }

  predicate SendRaised(acts: seq<Action>, k: nat, n: nat, error: string)
    requires k <= |acts|
  {
    exists i | 0 <= i < k :: Unsent(acts[i], n) && !acts[i].cancelled && acts[i].error == error
  }

  /** A call that ran again without being stopped found its future resolved. */
  lemma RanOnItsFuture(states: seq<State>, acts: seq<Action>, k: nat, n: nat)
    requires Execution(states, acts) && k < |states| && n in states[k].calls
    requires WasWoken(acts, k, n) && LastStop(acts, k, n).None?
    ensures var c := states[k].calls[n];
      && c.phase.Done? && !WasUnsent(acts, k, n)
      && (c.future.Answer? || c.future.Failure?)
      && c.phase.outcome == if c.future.Answer? then Returned(c.future.frame) else Raised(c.future.error)
  {
    TaleAlways(states, acts, k, n);
  }

  /** A call has returned `f` if and only if `f`, with its ticket and not an error event, found it waiting, and
    * the call ran again with no timer or cancellation having reached it. */
  lemma ReturnsExactly(states: seq<State>, acts: seq<Action>, k: nat, n: nat, f: Frame)
    requires Execution(states, acts) && k < |states| && n in states[k].calls
    ensures states[k].calls[n].phase == Done(Returned(f)) <==>
      WasWoken(acts, k, n) && LastStop(acts, k, n).None? && Given(states, acts, k, n, Answer(f))
    ensures states[k].calls[n].phase == Done(Returned(f)) ==> states[k].calls[n].record.error == ""
  {
    TaleAlways(states, acts, k, n);
    HoldsExactly(states, acts, k, n, Answer(f));
    if WasWoken(acts, k, n) && LastStop(acts, k, n).None? { RanOnItsFuture(states, acts, k, n); }
  }

  /** A call has raised `error` if and only if its own send failed with it, or the call ran again, not reached by
    * a timer or cancellation, after an error event with that body, a close or a disconnect found it waiting. */
  lemma RaisesExactly(states: seq<State>, acts: seq<Action>, k: nat, n: nat, error: string)
    requires Execution(states, acts) && k < |states| && n in states[k].calls
    ensures states[k].calls[n].phase == Done(Raised(error)) <==>
      || SendRaised(acts, k, n, error)
      || (WasWoken(acts, k, n) && LastStop(acts, k, n).None? && Given(states, acts, k, n, Failure(error)))
    ensures states[k].calls[n].phase == Done(Raised(error)) ==> states[k].calls[n].record.error == error
  {
    TaleAlways(states, acts, k, n);
    HoldsExactly(states, acts, k, n, Failure(error));
    if WasWoken(acts, k, n) && LastStop(acts, k, n).None? { RanOnItsFuture(states, acts, k, n); }
  }

  /** A call has timed out, or is in or was cancelled in the probe that follows, if and only if it ran again and
    * the last thing to reach it was its timer. */
  lemma TimesOutExactly(states: seq<State>, acts: seq<Action>, k: nat, n: nat)
    requires Execution(states, acts) && k < |states| && n in states[k].calls
    ensures var c := states[k].calls[n];
      c.phase.Probing? || c.phase == Done(TimedOut) || (c.phase == Done(Aborted) && !c.record.settled) <==>
        WasWoken(acts, k, n) && LastStop(acts, k, n) == Some(Deadline)
  {
    TaleAlways(states, acts, k, n);
  }

  /** It was cancelled before that if and only if its send was, or it ran again and the last thing to reach it
    * was a cancellation. */
  lemma AbortsExactly(states: seq<State>, acts: seq<Action>, k: nat, n: nat)
    requires Execution(states, acts) && k < |states| && n in states[k].calls
    ensures states[k].calls[n].phase == Done(Aborted) && states[k].calls[n].record.settled <==>
      || SendCancelled(acts, k, n)
      || (WasWoken(acts, k, n) && LastStop(acts, k, n) == Some(Cancellation))
  {
    TaleAlways(states, acts, k, n);
  }

  /** A frame with the ticket of a call that waits resolves it: with the frame, or with the failure an error event
    * carries; and the ticket is gone. */
  lemma FrameResolvesItsCall(s: State, f: Frame, now: real, n: nat)
    requires Inv(s) && s.receiving && StillWaits(s, n) && f.ticket == Some(Ticket(n))
    ensures var s' := Step(s, Receive(Data(f), now));
      && n in s'.calls && Ticket(n) !in s'.pending
      && s'.calls[n] == s.calls[n].(future := if f.event == "error" then Failure(f.body) else Answer(f))
  {
    assert CallOk(s, n) && Ticket(n)[0] == 't';
  }

  /** And a call does return: connect, call, send, receive its reply, run again. */
  lemma ReturnHappens(f: Frame) returns (states: seq<State>, acts: seq<Action>)
    requires f.ticket == Some(Ticket(1)) && f.event != "error"
    ensures Execution(states, acts) && 1 in states[|acts|].calls
    ensures states[|acts|].calls[1].phase == Done(Returned(f))
  {
    states, acts := FirstCall("memory.read");
    InvariantAlways(states, acts, |acts|);
    FrameResolvesItsCall(states[|acts|], f, 0.0, 1);
    states, acts := Extend(states, acts, Receive(Data(f), 0.0));
    states, acts := Extend(states, acts, Wake(1, "5"));
  }
}
