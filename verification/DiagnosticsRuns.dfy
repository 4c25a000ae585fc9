/** What the diagnostic records of whole transport runs mean. */
module DiagnosticsRuns {
  import opened Text
  import opened Transport
  import opened TransportInvariant
  import opened TransportMoves
  import opened TransportRuns
  import opened Attribution

  lemma MoveStamps(s: State, a: Action, s': State, n: nat, c': Call)
    requires n in s.calls && Moves(s, a, s', n, s.calls[n], c')
    requires Noted(s, a, n) ==> c' == Stamp(s.calls[n], a.now)
    ensures c'.record.broadcastAt == if Noted(s, a, n) then Some(a.now) else s.calls[n].record.broadcastAt
  {}

  lemma StampStep(s: State, a: Action, n: nat)
    requires Inv(s) && Enabled(s, a) && n in s.calls
    ensures n in Step(s, a).calls
    ensures Step(s, a).calls[n].record.broadcastAt ==
      if Noted(s, a, n) then Some(a.now) else s.calls[n].record.broadcastAt
  {
    StepMoves(s, a);
    var s' := Step(s, a);
    assert Moves(s, a, s', n, s.calls[n], s'.calls[n]);
    MoveStamps(s, a, s', n, s'.calls[n]);
  }

  /** The ring only ever forgets: a record that is in it now was in it ever since its call began. */
  lemma RingForgets(s: State, a: Action, n: nat)
    requires Inv(s) && Enabled(s, a) && n in s.calls && n in Step(s, a).ring
    ensures n in s.ring
  {
    assert CallOk(s, n);
    RingStep(s, a);
  }

  // ---------- whole runs ----------

  /** A record carries a broadcast stamp exactly when such a frame was handled while the call was
    * unsettled and its record was in the ring. */
  lemma {:induction false} StampedExactly(states: seq<State>, acts: seq<Action>, k: nat, n: nat)
    requires Execution(states, acts) && k < |states| && n in states[k].calls
    ensures states[k].calls[n].record.broadcastAt.Some? <==> exists m | 0 <= m < k :: Noted(states[m], acts[m], n)
  {
    if k > 0 {
      var s, a := states[k - 1], acts[k - 1];
      InvariantAlways(states, acts, k - 1);
      assert Linked(states, acts, k - 1);
      if n in s.calls {
        StampedExactly(states, acts, k - 1, n);
        StampStep(s, a, n);
      } else {
        NewCall(s, a, n);
        forall m | 0 <= m < k ensures !Noted(states[m], acts[m], n) {
          if n in states[m].calls { RunLasts(states, acts, m, k - 1, n); }
        }
      }
    }
  }

  /** When the last such frame was handled during the first `k` actions. */
  function LastNoted(states: seq<State>, acts: seq<Action>, k: nat, n: nat): Option<real>
    requires k <= |acts| < |states|
  {
    if k == 0 then None
    else if Noted(states[k - 1], acts[k - 1], n) then Some(acts[k - 1].now)
    else LastNoted(states, acts, k - 1, n)
  }

  lemma {:induction false} NotNotedYet(states: seq<State>, acts: seq<Action>, k: nat, n: nat)
    requires Execution(states, acts) && k < |states| && n !in states[k].calls
    ensures LastNoted(states, acts, k, n).None?
  {
    if k > 0 {
      if n in states[k - 1].calls { RunLasts(states, acts, k - 1, k, n); }
      NotNotedYet(states, acts, k - 1, n);
    }
  }

  /** The stamp is the time of the last of them. */
  lemma {:induction false} StampIsLatest(states: seq<State>, acts: seq<Action>, k: nat, n: nat)
    requires Execution(states, acts) && k < |states| && n in states[k].calls
    ensures states[k].calls[n].record.broadcastAt == LastNoted(states, acts, k, n)
  {
    if k > 0 {
      var s, a := states[k - 1], acts[k - 1];
      InvariantAlways(states, acts, k - 1);
      assert Linked(states, acts, k - 1);
      if n in s.calls {
        StampIsLatest(states, acts, k - 1, n);
        StampStep(s, a, n);
      } else {
        NewCall(s, a, n);
        NotNotedYet(states, acts, k - 1, n);
      }
    }
  }

  lemma {:induction false} InRingThroughout(states: seq<State>, acts: seq<Action>, i: nat, j: nat, n: nat)
    requires Execution(states, acts) && i <= j < |states| && n in states[i].calls && n in states[j].ring
    ensures n in states[i].ring
    decreases j - i
  {
    if i < j {
      RunLasts(states, acts, i, j - 1, n);
      InvariantAlways(states, acts, j - 1);
      assert Linked(states, acts, j - 1);
      RingForgets(states[j - 1], acts[j - 1], n);
      InRingThroughout(states, acts, i, j - 1, n);
    }
  }

  // ---------- settlement ----------

  /** The caller of `n` is cancelled while `n` waits for its own stepping probe: before the probe is sent,
    * while it is being sent, or while it waits for its answer. */
  ghost predicate CancelledUnderProbe(s: State, a: Action, n: nat) {
    && n in s.calls && s.calls[n].phase.Probing?
    && match a
       case ProbeUnsent(m, cancelled) => m == n && cancelled
       case SendFail(m, cancelled, _) => m in s.calls && s.calls[m].parent == Some(n) && cancelled
       case Wake(m, _) => m in s.calls && s.calls[m].parent == Some(n) && s.calls[m].stop == Some(Cancellation)
       case _ => false
  }

  lemma FinishAborts(s: State, m: nat, e: End, n: nat)
    requires m in s.calls && n in s.calls && s.calls[n].phase.Probing? && Unfinished(s.calls[m]) && m != n
    requires s.calls[m].parent != Some(m)
    ensures n in Finish(s, m, e).calls
    ensures Finish(s, m, e).calls[n].phase == Done(Aborted) <==> s.calls[m].parent == Some(n) && e.outcome.Aborted?
  {
    FinishTouches(s, m, e, n);
  }

  /** Steps without an end of a call change no phase but Sending. */
  lemma SimpleKeepsPhase(s: State, a: Action, n: nat)
    requires Enabled(s, a) && n in s.calls && (a.Begin? ==> s.counter + 1 !in s.calls)
    requires !a.Receive? && !a.Wake? && !a.SendFail? && !a.ProbeUnsent?
    ensures n in Step(s, a).calls
    ensures
      || Step(s, a).calls[n].phase == s.calls[n].phase
      || (s.calls[n].phase.Sending? && Step(s, a).calls[n].phase.Waiting?)
  {}

  lemma ReceiveKeepsPhase(s: State, w: Wire, now: real, n: nat)
    requires n in s.calls
    ensures n in Deliver(s, w, now).calls && Deliver(s, w, now).calls[n].phase == s.calls[n].phase
  {
    if w.Data? && !Matched(s, w.frame) {
      var f := w.frame;
      assert Filed(s, f).calls == s.calls;
      assert Filed(NoteBroadcast(s, f.event, now), f).calls == NoteBroadcast(s, f.event, now).calls;
    }
  }

  lemma WakeAborts(s: State, m: nat, shown: string, n: nat)
    requires Inv(s) && Enabled(s, Wake(m, shown)) && n in s.calls && s.calls[n].phase.Probing?
    ensures n in WakeUp(s, m, shown).calls
    ensures WakeUp(s, m, shown).calls[n].phase == Done(Aborted) <==> CancelledUnderProbe(s, Wake(m, shown), n)
  {
    assert CallOk(s, m) && CallOk(s, n);
    if s.calls[m].stop != Some(Deadline) || s.probing { FinishAborts(s, m, EndOf(s.calls[m], shown), n); }
  }

  lemma SendFailAborts(s: State, m: nat, cancelled: bool, error: string, n: nat)
    requires Inv(s) && Enabled(s, SendFail(m, cancelled, error)) && n in s.calls && s.calls[n].phase.Probing?
    ensures n in Step(s, SendFail(m, cancelled, error)).calls
    ensures Step(s, SendFail(m, cancelled, error)).calls[n].phase == Done(Aborted) <==>
      CancelledUnderProbe(s, SendFail(m, cancelled, error), n)
  {
    assert CallOk(s, m);
    FinishAborts(s, m, EndOfSend(cancelled, error), n);
  }

  lemma ProbeUnsentAborts(s: State, m: nat, cancelled: bool, n: nat)
    requires Enabled(s, ProbeUnsent(m, cancelled)) && n in s.calls && s.calls[n].phase.Probing?
    ensures n in Step(s, ProbeUnsent(m, cancelled)).calls
    ensures Step(s, ProbeUnsent(m, cancelled)).calls[n].phase == Done(Aborted) <==>
      CancelledUnderProbe(s, ProbeUnsent(m, cancelled), n)
  {}

  /** A probing call ends aborted by exactly these actions. */
  lemma AbortedByCancellation(s: State, a: Action, n: nat)
    requires Inv(s) && Enabled(s, a) && n in s.calls && s.calls[n].phase.Probing?
    ensures n in Step(s, a).calls
    ensures Step(s, a).calls[n].phase == Done(Aborted) <==> CancelledUnderProbe(s, a, n)
  {
    match a
    case SendFail(m, cancelled, error) => SendFailAborts(s, m, cancelled, error, n);
    case Wake(m, shown) => WakeAborts(s, m, shown, n);
    case ProbeUnsent(m, cancelled) => ProbeUnsentAborts(s, m, cancelled, n);
    case Receive(w, now) => ReceiveKeepsPhase(s, w, now, n);
    case _ =>
      CounterUnused(s);
      SimpleKeepsPhase(s, a, n);
  }

  lemma MoveSettles(s: State, a: Action, s': State, n: nat, c': Call)
    requires n in s.calls && CallOk(s, n) && Moves(s, a, s', n, s.calls[n], c') && c'.phase.Done?
    ensures !c'.record.settled <==>
      (s.calls[n].phase.Done? && !s.calls[n].record.settled) || (s.calls[n].phase.Probing? && c'.phase.outcome.Aborted?)
  {}

  lemma UnsettledStep(s: State, a: Action, n: nat)
    requires Inv(s) && Enabled(s, a) && n in s.calls && n in Step(s, a).calls && Step(s, a).calls[n].phase.Done?
    ensures !Step(s, a).calls[n].record.settled <==>
      (s.calls[n].phase.Done? && !s.calls[n].record.settled) || CancelledUnderProbe(s, a, n)
  {
    StepMoves(s, a);
    assert CallOk(s, n) && Moves(s, a, Step(s, a), n, s.calls[n], Step(s, a).calls[n]);
    MoveSettles(s, a, Step(s, a), n, Step(s, a).calls[n]);
    if s.calls[n].phase.Probing? { AbortedByCancellation(s, a, n); }
  }

  lemma NotCancelledYet(states: seq<State>, acts: seq<Action>, k: nat, n: nat)
    requires Execution(states, acts) && k < |states| && (n in states[k].calls ==> !states[k].calls[n].phase.Done?)
    ensures forall m | 0 <= m < k :: !CancelledUnderProbe(states[m], acts[m], n)
  {
    forall m | 0 <= m < k ensures !CancelledUnderProbe(states[m], acts[m], n) {
      if CancelledUnderProbe(states[m], acts[m], n) {
        InvariantAlways(states, acts, m);
        assert Linked(states, acts, m);
        AbortedByCancellation(states[m], acts[m], n);
        RunLasts(states, acts, m + 1, k, n);
      }
    }
  }

  lemma StillUnsettled(states: seq<State>, acts: seq<Action>, k: nat, n: nat)
    requires Execution(states, acts) && k > 0 && k < |states| && n in states[k].calls && states[k].calls[n].phase.Done?
    ensures n in states[k - 1].calls
    ensures !states[k].calls[n].record.settled <==>
      (states[k - 1].calls[n].phase.Done? && !states[k - 1].calls[n].record.settled)
      || CancelledUnderProbe(states[k - 1], acts[k - 1], n)
  {
    InvariantAlways(states, acts, k - 1);
    assert Linked(states, acts, k - 1);
    if n !in states[k - 1].calls { NewCall(states[k - 1], acts[k - 1], n); }
    UnsettledStep(states[k - 1], acts[k - 1], n);
  }

  /** A finished call leaves an unsettled record exactly when it was cancelled under its own probe. */
  lemma {:induction false} UnsettledExactly(states: seq<State>, acts: seq<Action>, k: nat, n: nat)
    requires Execution(states, acts) && k < |states| && n in states[k].calls && states[k].calls[n].phase.Done?
    ensures !states[k].calls[n].record.settled <==>
      exists m | 0 <= m < k :: CancelledUnderProbe(states[m], acts[m], n)
  {
    StillUnsettled(states, acts, k, n);
    if states[k - 1].calls[n].phase.Done? { UnsettledExactly(states, acts, k - 1, n); }
    else { NotCancelledYet(states, acts, k - 1, n); }
  }

  lemma FirstTimeout() returns (states: seq<State>, acts: seq<Action>)
    ensures Execution(states, acts)
    ensures var s := states[|acts|];
      && s.calls == map[1 := Call("memory.read", None, Probing("5"), Dead, Some(Deadline), Fresh)]
      && s.counter == 1 && s.pending == map[] && s.probing
  {
    states, acts := FirstCall("memory.read");
    states, acts := Extend(states, acts, Interrupt(1, Deadline));
    states, acts := Extend(states, acts, Wake(1, "5"));
  }

  /** Such a cancellation does happen: a call times out, its probe is sent, and the caller is cancelled
    * while the probe waits. */
  lemma UnsettledHappens() returns (states: seq<State>, acts: seq<Action>)
    ensures Execution(states, acts)
    ensures var s := states[|acts|]; 1 in s.calls && s.calls[1].phase.Done? && !s.calls[1].record.settled
  {
    states, acts := FirstTimeout();
    states, acts := Extend(states, acts, Begin("cpu.status", Some(1)));
    states, acts := Extend(states, acts, Sent(2));
    states, acts := Extend(states, acts, Interrupt(2, Cancellation));
    states, acts := Extend(states, acts, Wake(2, "0.5"));
  }

  // ---------- the stepping answer ----------

  lemma AnswerStaysSaid(s: State, a: Action, n: nat, answer: Option<bool>)
    requires Inv(s) && Enabled(s, a) && ProbeSaid(s, n, answer)
    ensures ProbeSaid(Step(s, a), n, answer)
  {
    var m :| m in s.calls && ProbeReturned(s.calls[m], n, answer);
    StepLasts(s, a, m);
    assert ProbeReturned(Step(s, a).calls[m], n, answer);
  }

  lemma MoveTellsStepping(s: State, a: Action, s': State, n: nat, c': Call)
    requires n in s.calls && CallOk(s, n) && Moves(s, a, s', n, s.calls[n], c') && c'.record.stepping.Some?
    ensures c'.record.stepping == s.calls[n].record.stepping || ProbeSaid(s', n, c'.record.stepping)
  {}

  /** A record's stepping value is what PPSSPP itself answered to that call's own probe. */
  lemma {:induction false} SteppingWasAnswered(states: seq<State>, acts: seq<Action>, k: nat, n: nat)
    requires Execution(states, acts) && k < |states| && n in states[k].calls
    requires states[k].calls[n].record.stepping.Some?
    ensures ProbeSaid(states[k], n, states[k].calls[n].record.stepping)
  {
    var s, a := states[k - 1], acts[k - 1];
    InvariantAlways(states, acts, k - 1);
    assert Linked(states, acts, k - 1);
    if n !in s.calls { NewCall(s, a, n); }
    StepMoves(s, a);
    assert CallOk(s, n) && Moves(s, a, states[k], n, s.calls[n], states[k].calls[n]);
    MoveTellsStepping(s, a, states[k], n, states[k].calls[n]);
    if s.calls[n].record.stepping == states[k].calls[n].record.stepping {
      SteppingWasAnswered(states, acts, k - 1, n);
      AnswerStaysSaid(s, a, n, states[k].calls[n].record.stepping);
    }
  }

  /** A probe never probes itself, so until it is done it is being sent or waits. */
  lemma ProbeIsUnfinished(s: State, m: nat)
    requires Inv(s) && m in s.calls && s.calls[m].parent.Some? && !s.calls[m].phase.Done?
    ensures Unfinished(s.calls[m])
  {
    assert CallOk(s, m);
  }

  lemma ProberHears(s: State, m: nat, e: End, n: nat)
    requires m in s.calls && s.calls[m].parent == Some(n) && e.outcome.Returned?
    requires n in s.calls && s.calls[n].phase.Probing? && m != n
    ensures n in Finish(s, m, e).calls && Finish(s, m, e).calls[n].record.stepping == e.outcome.frame.stepping
    ensures Finish(s, m, e).calls[m].phase == Done(e.outcome)
  {
    FinishTouches(s, m, e, n);
  }

  /** A call that returned just now was awake, and its prober ended in the same segment. */
  lemma ReturnedNow(s: State, a: Action, m: nat, n: nat, b: bool)
    requires Inv(s) && Enabled(s, a) && m in s.calls && m in Step(s, a).calls && s.calls[m].parent == Some(n)
    requires !s.calls[m].phase.Done? && ProbeReturned(Step(s, a).calls[m], n, Some(b))
    ensures n in Step(s, a).calls && Step(s, a).calls[n].record.stepping == Some(b)
  {
    assert CallOk(s, m);
    ProbeIsUnfinished(s, m);
    EndsByWaking(s, a, m);
    var e := EndOf(s.calls[m], a.shown);
    OwnEnd(s, m, e);
    ProberHears(s, m, e, n);
  }

  lemma OtherEnds(s: State, m: nat, e: End, x: nat)
    requires x in s.calls && m in s.calls && x != m && Unfinished(s.calls[m])
    ensures m in Finish(s, x, e).calls && Finish(s, x, e).calls[m] == s.calls[m]
  {}

  lemma OwnEnd(s: State, m: nat, e: End)
    requires m in s.calls && s.calls[m].parent != Some(m)
    ensures m in Finish(s, m, e).calls && Finish(s, m, e).calls[m].phase == Done(e.outcome)
  {}

  /** Only its own waking makes an unfinished call return. */
  lemma EndsByWaking(s: State, a: Action, m: nat)
    requires Inv(s) && Enabled(s, a) && m in s.calls && m in Step(s, a).calls
    requires Unfinished(s.calls[m]) && Step(s, a).calls[m].phase.Done? && Step(s, a).calls[m].phase.outcome.Returned?
    ensures a.Wake? && a.id == m && Step(s, a) == Finish(s, m, EndOf(s.calls[m], a.shown))
  {
    match a
    case SendFail(x, cancelled, error) =>
      NoOwnParent(s, x);
      FailedSendReturnsNothing(s, x, EndOfSend(cancelled, error), m);
    case Wake(x, shown) => if x == m { WakesItself(s, m, shown); } else { OtherWakes(s, x, shown, m); }
    case Receive(w, now) => ReceiveKeepsPhase(s, w, now, m);
    case ProbeUnsent(_, _) =>
    case _ =>
      CounterUnused(s);
      SimpleKeepsPhase(s, a, m);
  }

  lemma NoOwnParent(s: State, x: nat)
    requires Inv(s) && x in s.calls
    ensures s.calls[x].parent != Some(x)
  {
    assert CallOk(s, x);
  }

  lemma WakesItself(s: State, m: nat, shown: string)
    requires m in s.calls && m in WakeUp(s, m, shown).calls && WakeUp(s, m, shown).calls[m].phase.Done?
    ensures WakeUp(s, m, shown) == Finish(s, m, EndOf(s.calls[m], shown))
  {}

  lemma FailedSendReturnsNothing(s: State, x: nat, e: End, m: nat)
    requires x in s.calls && m in s.calls && Unfinished(s.calls[m])
    requires s.calls[x].parent != Some(x) && !e.outcome.Returned?
    ensures m in Finish(s, x, e).calls
    ensures Finish(s, x, e).calls[m].phase.Done? ==> !Finish(s, x, e).calls[m].phase.outcome.Returned?
  {
    if x != m { OtherEnds(s, m, e, x); } else { OwnEnd(s, m, e); }
  }

  lemma OtherWakes(s: State, x: nat, shown: string, m: nat)
    requires Enabled(s, Wake(x, shown)) && m in s.calls && x != m && Unfinished(s.calls[m])
    ensures m in WakeUp(s, x, shown).calls && WakeUp(s, x, shown).calls[m].phase == s.calls[m].phase
  {
    if s.calls[x].stop != Some(Deadline) || s.probing { OtherEnds(s, m, EndOf(s.calls[x], shown), x); }
  }

  /** The record of a call holds a stepping value exactly if its own probe returned that answer. */
  lemma {:induction false} SteppingExactly(states: seq<State>, acts: seq<Action>, k: nat, n: nat, b: bool)
    requires Execution(states, acts) && k < |states|
    ensures n in states[k].calls && states[k].calls[n].record.stepping == Some(b) <==> ProbeSaid(states[k], n, Some(b))
  {
    if n in states[k].calls && states[k].calls[n].record.stepping == Some(b) {
      SteppingWasAnswered(states, acts, k, n);
    }
    if ProbeSaid(states[k], n, Some(b)) { SaidIsRecorded(states, acts, k, n, b); }
  }

  lemma {:induction false} SaidIsRecorded(states: seq<State>, acts: seq<Action>, k: nat, n: nat, b: bool)
    requires Execution(states, acts) && k < |states| && ProbeSaid(states[k], n, Some(b))
    ensures n in states[k].calls && states[k].calls[n].record.stepping == Some(b)
  {
    var m :| m in states[k].calls && ProbeReturned(states[k].calls[m], n, Some(b));
    var s, a := states[k - 1], acts[k - 1];
    InvariantAlways(states, acts, k - 1);
    assert Linked(states, acts, k - 1);
    if m !in s.calls { NewCall(s, a, m); }
    if ProbeReturned(s.calls[m], n, Some(b)) {
      SaidIsRecorded(states, acts, k - 1, n, b);
      assert CallOk(s, n);
      StepLasts(s, a, n);
    } else {
      StepLasts(s, a, m);
      ReturnedNow(s, a, m, n, b);
    }
  }

  // ---------- attribution ----------

  /** The cause named for a finished call, in terms of what happened during the run: whether its own probe
    * was answered "stepping", and which frames were handled while it was open. A timeout is never blamed on
    * the transport. */
  lemma AttributionExact(states: seq<State>, acts: seq<Action>, k: nat, n: nat)
    requires Execution(states, acts) && k < |states| && n in states[k].calls && states[k].calls[n].phase.Done?
    ensures
      var c := states[k].calls[n];
      var cause := AttributeTimeout(Some(c.record));
      var timedOut := c.phase.outcome.TimedOut?;
      var stepping := ProbeSaid(states[k], n, Some(true));
      var noted := exists m | 0 <= m < k :: Noted(states[m], acts[m], n);
      && (cause == ExpectedStall <==> stepping)
      && (cause == PairingBroken <==> timedOut && !stepping && noted)
      && (cause == NoProducer <==> timedOut && !stepping && !noted)
      && (cause == Unknown <==> !timedOut && !stepping)
  {
    InvariantAlways(states, acts, k);
    assert CallOk(states[k], n);
    StampedExactly(states, acts, k, n);
    SteppingExactly(states, acts, k, n, true);
    var r := states[k].calls[n].record;
    if r.timedOut {
      var shown :| NumeralText(shown) && r.error == TimeoutText(shown);
      TimeoutTextIsNeutral(shown);
    }
  }

  /** "no_producer" on a record that stayed in the ring: no such frame was handled at all. */
  lemma NoProducerMeansSilence(states: seq<State>, acts: seq<Action>, k: nat, n: nat)
    requires Execution(states, acts) && k < |states| && n in states[k].calls && states[k].calls[n].phase.Done?
    requires AttributeTimeout(Some(states[k].calls[n].record)) == NoProducer && n in states[k].ring
    ensures forall m | 0 <= m < k :: !Heard(states[m], acts[m], n)
  {
    AttributionExact(states, acts, k, n);
    forall m | 0 <= m < k ensures !Heard(states[m], acts[m], n) {
      if n in states[m].calls {
        InRingThroughout(states, acts, m, k, n);
        assert !Noted(states[m], acts[m], n);
      }
    }
  }
}
