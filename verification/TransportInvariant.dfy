/** Every step of the transport keeps its invariant. */
module TransportInvariant {
  import opened Text
  import opened Transport

  /** A call keeps its part of the invariant when it, its table entry and its prober stay as they are. */
  lemma CallFrame(s: State, s': State, n: nat)
    requires n in s.calls && CallOk(s, n)
    requires n in s'.calls && s'.calls[n] == s.calls[n] && s.counter <= s'.counter
    requires Unfinished(s.calls[n]) && s.calls[n].future.Unresolved? ==>
      Ticket(n) in s'.pending && s'.pending[Ticket(n)] == n
    requires s.calls[n].phase.Probing? ==> s'.probing
    requires s.calls[n].parent.Some? ==> s.calls[n].parent.value in s'.calls
    requires s.calls[n].parent.Some? && !s.calls[n].phase.Done? ==> s'.calls[s.calls[n].parent.value].phase.Probing?
    ensures CallOk(s', n)
  {}

  lemma CounterUnused(s: State)
    requires Inv(s)
    ensures s.counter + 1 !in s.calls
  {
    forall n | n in s.calls ensures n <= s.counter { assert CallOk(s, n); }
  }

  lemma NextTicketUnused(s: State)
    requires Inv(s)
    ensures Ticket(s.counter + 1) !in s.pending
  {
    forall t | t in s.pending ensures t != Ticket(s.counter + 1) {
      assert EntryOk(s, t) && CallOk(s, s.pending[t]);
      if t == Ticket(s.counter + 1) { TicketInjective(s.pending[t], s.counter + 1); }
    }
  }

  lemma TableNamesCalls(s: State)
    requires Inv(s)
    ensures s.pending.Values <= s.calls.Keys
  {
    forall t | t in s.pending ensures s.pending[t] in s.calls { assert EntryOk(s, t); }
  }

  lemma FailOneMore(calls: map<nat, Call>, ids: set<nat>, n: nat, error: string)
    requires n in calls && n !in ids
    ensures FailSome(calls, ids + {n}, error) ==
      FailSome(calls, ids, error)[
        n := if calls[n].future.Unresolved? then calls[n].(future := Failure(error)) else calls[n]]
  {}

  /** A finished or probing call has no table entry. */
  lemma FinishedLeavesTable(s: State, n: nat)
    requires Inv(s) && n in s.calls && !Unfinished(s.calls[n])
    ensures Ticket(n) !in s.pending
  {
    forall t | t in s.pending ensures t != Ticket(n) {
      assert EntryOk(s, t);
      if t == Ticket(n) { TicketInjective(s.pending[t], n); }
    }
  }

  lemma StartCalls(s: State, event: string, parent: Option<nat>, m: nat)
    requires forall n | n in s.calls :: CallOk(s, n)
    requires Enabled(s, Begin(event, parent))
    requires m in Start(s, event, parent).calls
    ensures CallOk(Start(s, event, parent), m)
  {
    var s' := Start(s, event, parent);
    var n := s.counter + 1;
    if m != n {
      assert CallOk(s, m);
      if Ticket(m) == Ticket(n) { TicketInjective(m, n); }
      CallFrame(s, s', m);
    } else if parent.Some? {
      assert CallOk(s, parent.value);
    }
  }

  lemma StartQueues(s: State, event: string, parent: Option<nat>)
    requires QueuesOk(s) && forall n | n in s.calls :: CallOk(s, n)
    ensures s.counter + 1 !in s.calls && QueuesOk(Start(s, event, parent))
  {
    var n := s.counter + 1;
    forall m | m in s.calls ensures m <= s.counter { assert CallOk(s, m); }
    forall i | 0 <= i < |s.ring| ensures s.ring[i] < n { assert CallOk(s, s.ring[i]); }
  }

  lemma StartProber(s: State, event: string, parent: Option<nat>)
    requires OneProber(s) && s.counter + 1 !in s.calls && Enabled(s, Begin(event, parent))
    ensures OneProber(Start(s, event, parent))
  {
    var s' := Start(s, event, parent);
    if s.probing {
      var p :| p in s.calls && s.calls[p].phase.Probing?;
      assert p in s'.calls && s'.calls[p].phase.Probing?;
    }
  }

  lemma StartKeepsInv(s: State, event: string, parent: Option<nat>)
    requires Inv(s) && Enabled(s, Begin(event, parent))
    ensures Inv(Start(s, event, parent))
  {
    var s' := Start(s, event, parent);
    StartQueues(s, event, parent);
    StartProber(s, event, parent);
    forall m | m in s'.calls ensures CallOk(s', m) { StartCalls(s, event, parent, m); }
    forall t | t in s'.pending ensures EntryOk(s', t) {
      if t != Ticket(s.counter + 1) { assert EntryOk(s, t); }
    }
  }

  lemma ProbeOverKeepsInv(s: State, p: nat, o: Outcome)
    requires Inv(s) && p in s.calls && s.calls[p].phase.Probing?
    requires forall m | m in s.calls && s.calls[m].parent == Some(p) :: s.calls[m].phase.Done?
    ensures Inv(ProbeOver(s, p, o))
  {
    var s' := ProbeOver(s, p, o);
    forall m | m in s'.calls ensures CallOk(s', m) {
      assert CallOk(s, m);
      if m == p {
        assert !o.Aborted? ==> s'.calls[p].record.error == TimeoutText(s.calls[p].phase.shown);
      } else {
        CallFrame(s, s', m);
      }
    }
    forall t | t in s'.pending ensures EntryOk(s', t) { assert EntryOk(s, t); }
  }

  /** A fair end: a returned frame is the answer held, a timeout carries a timeout text. */
  ghost predicate FairEnd(c: Call, e: End) {
    && (e.outcome.Returned? ==> c.future == Answer(e.outcome.frame))
    && (e.timedOut <==> e.outcome.TimedOut?)
    && (e.timedOut ==> exists shown :: NumeralText(shown) && e.error == TimeoutText(shown))
  }

  lemma EndedCalls(s: State, n: nat, e: End, m: nat)
    requires Inv(s) && n in s.calls && Unfinished(s.calls[n]) && FairEnd(s.calls[n], e) && m in s.calls
    ensures CallOk(Ended(s, n, e), m)
  {
    assert CallOk(s, m);
    if m != n {
      if Ticket(m) == Ticket(n) { TicketInjective(m, n); }
      CallFrame(s, Ended(s, n, e), m);
    }
  }

  lemma EndedKeepsInv(s: State, n: nat, e: End)
    requires Inv(s) && n in s.calls && Unfinished(s.calls[n]) && FairEnd(s.calls[n], e)
    ensures Inv(Ended(s, n, e))
  {
    var s' := Ended(s, n, e);
    forall m | m in s'.calls ensures CallOk(s', m) { EndedCalls(s, n, e, m); }
    forall t | t in s'.pending ensures EntryOk(s', t) { EndedEntry(s, n, e, t); }
    EndedProber(s, n, e);
  }

  lemma EndedEntry(s: State, n: nat, e: End, t: string)
    requires n in s.calls && t in s.pending && t != Ticket(n) && EntryOk(s, t)
    ensures EntryOk(Ended(s, n, e), t)
  {}

  lemma EndedProber(s: State, n: nat, e: End)
    requires OneProber(s) && n in s.calls && Unfinished(s.calls[n])
    ensures OneProber(Ended(s, n, e))
  {
    var s' := Ended(s, n, e);
    if s.probing {
      var p :| p in s.calls && s.calls[p].phase.Probing?;
      assert p in s'.calls && s'.calls[p].phase.Probing?;
    }
  }

  lemma FinishKeepsInv(s: State, n: nat, e: End)
    requires Inv(s) && n in s.calls && Unfinished(s.calls[n]) && FairEnd(s.calls[n], e)
    ensures Inv(Finish(s, n, e))
  {
    EndedKeepsInv(s, n, e);
    var s' := Ended(s, n, e);
    assert CallOk(s, n);
    if s.calls[n].parent.Some? {
      forall m | m in s'.calls && s'.calls[m].parent == s.calls[n].parent
        ensures s'.calls[m].phase.Done?
      {
        assert s.calls[m].parent == s.calls[n].parent;
      }
      ProbeOverKeepsInv(s', s.calls[n].parent.value, e.outcome);
    }
  }

  lemma StartProbeKeepsInv(s: State, n: nat, shown: string)
    requires Inv(s) && n in s.calls && s.calls[n].phase.Waiting? && !s.probing && NumeralText(shown)
    ensures Inv(StartProbe(s, n, shown))
  {
    var s' := StartProbe(s, n, shown);
    assert CallOk(s, n);
    forall m | m in s'.calls ensures CallOk(s', m) {
      assert CallOk(s, m);
      if m != n {
        if Ticket(m) == Ticket(n) { TicketInjective(m, n); }
        CallFrame(s, s', m);
      }
    }
    forall t | t in s'.pending ensures EntryOk(s', t) { assert EntryOk(s, t); }
    forall p | p in s.calls ensures !s.calls[p].phase.Probing? { assert CallOk(s, p); }
    assert n in s'.calls && s'.calls[n].phase.Probing?;
  }

  /** Changes to futures, stops and stamps of calls that leave phases, parents and settlement alone. */
  ghost predicate SameShape(c: Call, c': Call) {
    && c'.event == c.event && c'.parent == c.parent && c'.phase == c.phase
    && c'.record == c.record.(broadcastAt := c'.record.broadcastAt)
  }

  ghost predicate Reshaped(s: State, s': State) {
    && s'.calls.Keys == s.calls.Keys
    && (forall n | n in s.calls :: SameShape(s.calls[n], s'.calls[n]))
    && s'.counter == s.counter && s'.probing == s.probing && s'.ring == s.ring
  }

  lemma ReshapedCall(s: State, s': State, n: nat)
    requires Reshaped(s, s') && n in s.calls && CallOk(s, n) && FutureOk(s', n)
    ensures CallOk(s', n)
  {
    assert SameShape(s.calls[n], s'.calls[n]);
    if s.calls[n].parent.Some? {
      assert SameShape(s.calls[s.calls[n].parent.value], s'.calls[s.calls[n].parent.value]);
    }
  }

  lemma ReshapedProber(s: State, s': State)
    requires Reshaped(s, s') && OneProber(s)
    ensures OneProber(s')
  {
    assert forall n | n in s.calls :: SameShape(s.calls[n], s'.calls[n]);
    if s.probing {
      var p :| p in s.calls && s.calls[p].phase.Probing?;
      assert p in s'.calls && s'.calls[p].phase.Probing?;
    }
  }

  lemma ReshapeKeepsInv(s: State, s': State)
    requires Inv(s) && Reshaped(s, s') && QueuesOk(s')
    requires forall n | n in s.calls :: FutureOk(s', n)
    requires forall t | t in s'.pending :: EntryOk(s', t)
    ensures Inv(s')
  {
    forall n | n in s'.calls ensures CallOk(s', n) { ReshapedCall(s, s', n); }
    ReshapedProber(s, s');
  }

  lemma FailAllCall(s: State, error: string, n: nat)
    requires n in s.calls && FutureOk(s, n)
    requires forall t | t in s.pending :: EntryOk(s, t)
    ensures FutureOk(FailAll(s, error), n)
  {
    if Unfinished(s.calls[n]) && s.calls[n].future.Unresolved? {
      assert s.pending[Ticket(n)] in s.pending.Values;
    } else if n in s.pending.Values {
      var t :| t in s.pending && s.pending[t] == n;
      assert EntryOk(s, t);
    }
  }

  lemma FailAllReshapes(s: State, error: string)
    requires QueuesOk(s)
    ensures Reshaped(s, FailAll(s, error)) && QueuesOk(FailAll(s, error)) && FailAll(s, error).pending == map[]
  {}

  lemma FailAllKeepsInv(s: State, error: string)
    requires Inv(s)
    ensures Inv(FailAll(s, error))
  {
    var s' := FailAll(s, error);
    forall n | n in s.calls ensures FutureOk(s', n) {
      assert CallOk(s, n);
      FailAllCall(s, error, n);
    }
    FailAllReshapes(s, error);
    ReshapeKeepsInv(s, s');
  }

  lemma NoteBroadcastReshapes(s: State, event: string, now: real)
    requires QueuesOk(s)
    ensures Reshaped(s, NoteBroadcast(s, event, now)) && QueuesOk(NoteBroadcast(s, event, now))
  {}

  lemma NoteBroadcastFuture(s: State, event: string, now: real, n: nat)
    requires n in s.calls && FutureOk(s, n)
    ensures FutureOk(NoteBroadcast(s, event, now), n)
  {}

  lemma NoteBroadcastEntry(s: State, event: string, now: real, t: string)
    requires t in s.pending && EntryOk(s, t)
    ensures EntryOk(NoteBroadcast(s, event, now), t)
  {}

  lemma NoteBroadcastKeepsInv(s: State, event: string, now: real)
    requires Inv(s)
    ensures Inv(NoteBroadcast(s, event, now))
  {
    var s' := NoteBroadcast(s, event, now);
    forall n | n in s.calls ensures FutureOk(s', n) {
      assert CallOk(s, n);
      NoteBroadcastFuture(s, event, now, n);
    }
    forall t | t in s'.pending ensures EntryOk(s', t) { NoteBroadcastEntry(s, event, now, t); }
    NoteBroadcastReshapes(s, event, now);
    ReshapeKeepsInv(s, s');
  }

  lemma RespondCall(s: State, f: Frame, n: nat)
    requires Matched(s, f) && EntryOk(s, f.ticket.value)
    requires n in s.calls && FutureOk(s, n)
    ensures FutureOk(Respond(s, f), n)
  {
    if Ticket(n) == f.ticket.value { TicketInjective(n, s.pending[f.ticket.value]); }
  }

  lemma RespondEntry(s: State, f: Frame, u: string)
    requires Matched(s, f) && EntryOk(s, f.ticket.value)
    requires u in Respond(s, f).pending && EntryOk(s, u)
    ensures EntryOk(Respond(s, f), u)
  {}

  lemma RespondReshapes(s: State, f: Frame)
    requires Matched(s, f) && EntryOk(s, f.ticket.value) && QueuesOk(s)
    ensures Reshaped(s, Respond(s, f)) && QueuesOk(Respond(s, f))
  {}

  lemma RespondKeepsInv(s: State, f: Frame)
    requires Inv(s) && Matched(s, f)
    ensures Inv(Respond(s, f))
  {
    var s' := Respond(s, f);
    assert EntryOk(s, f.ticket.value);
    forall n | n in s.calls ensures FutureOk(s', n) {
      assert CallOk(s, n);
      RespondCall(s, f, n);
    }
    forall u | u in s'.pending ensures EntryOk(s', u) { RespondEntry(s, f, u); }
    RespondReshapes(s, f);
    ReshapeKeepsInv(s, s');
  }

  lemma InterruptReshapes(s: State, n: nat, why: Stop)
    requires QueuesOk(s) && n in s.calls
    ensures Reshaped(s, Interrupted(s, n, why)) && QueuesOk(Interrupted(s, n, why))
  {}

  lemma InterruptFuture(s: State, n: nat, why: Stop, m: nat)
    requires n in s.calls && s.calls[n].phase.Waiting? && m in s.calls && FutureOk(s, m)
    ensures FutureOk(Interrupted(s, n, why), m)
  {}

  lemma InterruptEntry(s: State, n: nat, why: Stop, t: string)
    requires n in s.calls && t in s.pending && EntryOk(s, t)
    ensures EntryOk(Interrupted(s, n, why), t)
  {}

  lemma InterruptKeepsInv(s: State, n: nat, why: Stop)
    requires Inv(s) && n in s.calls && s.calls[n].phase.Waiting?
    ensures Inv(Interrupted(s, n, why))
  {
    var s' := Interrupted(s, n, why);
    forall m | m in s.calls ensures FutureOk(s', m) {
      assert CallOk(s, m);
      InterruptFuture(s, n, why, m);
    }
    forall t | t in s'.pending ensures EntryOk(s', t) { InterruptEntry(s, n, why, t); }
    InterruptReshapes(s, n, why);
    ReshapeKeepsInv(s, s');
  }

  lemma SentProber(s: State, n: nat)
    requires OneProber(s) && n in s.calls && s.calls[n].phase.Sending?
    ensures OneProber(s.(calls := s.calls[n := s.calls[n].(phase := Waiting)]))
  {
    var s' := s.(calls := s.calls[n := s.calls[n].(phase := Waiting)]);
    if s.probing {
      var p :| p in s.calls && s.calls[p].phase.Probing?;
      assert p in s'.calls && s'.calls[p].phase.Probing?;
    }
  }

  lemma SentKeepsInv(s: State, n: nat)
    requires Inv(s) && n in s.calls && s.calls[n].phase.Sending?
    ensures Inv(s.(calls := s.calls[n := s.calls[n].(phase := Waiting)]))
  {
    var s' := s.(calls := s.calls[n := s.calls[n].(phase := Waiting)]);
    forall m | m in s'.calls ensures CallOk(s', m) {
      assert CallOk(s, m);
      if m != n { CallFrame(s, s', m); }
    }
    forall t | t in s'.pending ensures EntryOk(s', t) { assert EntryOk(s, t); }
    SentProber(s, n);
  }

  /** Steps that touch only queues, counters and flags. */
  lemma SidelinesKeepInv(s: State, s': State)
    requires Inv(s) && QueuesOk(s')
    requires s'.calls == s.calls && s'.pending == s.pending && s'.probing == s.probing && s.counter <= s'.counter
    ensures Inv(s')
  {
    forall n | n in s'.calls ensures CallOk(s', n) {
      assert CallOk(s, n);
      CallFrame(s, s', n);
    }
    forall t | t in s'.pending ensures EntryOk(s', t) { assert EntryOk(s, t); }
  }

  lemma FiledKeepsInv(s: State, f: Frame)
    requires Inv(s)
    ensures Inv(Filed(s, f))
  {
    FiledQueues(s, f);
    SidelinesKeepInv(s, Filed(s, f));
  }

  lemma FiledQueues(s: State, f: Frame)
    requires QueuesOk(s)
    ensures QueuesOk(Filed(s, f))
    ensures Filed(s, f) ==
      s.(events := Filed(s, f).events, dropped := Filed(s, f).dropped, versions := Filed(s, f).versions)
  {}

  lemma UnmatchedKeepsInv(s: State, f: Frame, now: real)
    requires Inv(s)
    ensures Inv(Unmatched(s, f, now))
  {
    if OwnEcho(s, f) {
      FiledKeepsInv(s, f);
    } else {
      NoteBroadcastKeepsInv(s, f.event, now);
      FiledKeepsInv(NoteBroadcast(s, f.event, now), f);
    }
  }

  lemma DeliverKeepsInv(s: State, w: Wire, now: real)
    requires Inv(s)
    ensures Inv(Deliver(s, w, now))
  {
    match w
    case Malformed => SidelinesKeepInv(s, Deliver(s, w, now));
    case Data(f) =>
      if Matched(s, f) { RespondKeepsInv(s, f); } else { UnmatchedKeepsInv(s, f, now); }
  }

  lemma WakeKeepsInv(s: State, n: nat, shown: string)
    requires Inv(s) && Enabled(s, Wake(n, shown))
    ensures Inv(WakeUp(s, n, shown))
  {
    assert CallOk(s, n);
    if s.calls[n].stop == Some(Deadline) && !s.probing { StartProbeKeepsInv(s, n, shown); }
    else { FinishKeepsInv(s, n, EndOf(s.calls[n], shown)); }
  }

  lemma SendFailKeepsInv(s: State, n: nat, cancelled: bool, error: string)
    requires Inv(s) && Enabled(s, SendFail(n, cancelled, error))
    ensures Inv(Finish(s, n, EndOfSend(cancelled, error)))
  {
    FinishKeepsInv(s, n, EndOfSend(cancelled, error));
  }

  lemma ProbeUnsentKeepsInv(s: State, n: nat, cancelled: bool)
    requires Inv(s) && Enabled(s, ProbeUnsent(n, cancelled))
    ensures Inv(ProbeOver(s, n, if cancelled then Aborted else Raised("")))
  {
    ProbeOverKeepsInv(s, n, if cancelled then Aborted else Raised(""));
  }

  lemma FlushKeepsInv(s: State, error: string)
    requires Inv(s)
    ensures Inv(FailAll(s, error).(receiving := false))
  {
    FailAllKeepsInv(s, error);
    SidelinesKeepInv(FailAll(s, error), FailAll(s, error).(receiving := false));
  }

  lemma OffsideKeepsInv(s: State, a: Action)
    requires Inv(s) && Enabled(s, a) && (a.LoopExit? || a.Reconnect? || a.FireAndForget? || a.TakeEvent?)
    ensures Inv(Step(s, a))
  {
    SidelinesKeepInv(s, Step(s, a));
  }

  lemma StepKeepsInv(s: State, a: Action)
    requires Inv(s) && Enabled(s, a)
    ensures Inv(Step(s, a))
  {
    match a
    case Begin(event, parent) => StartKeepsInv(s, event, parent);
    case Sent(n) => SentKeepsInv(s, n);
    case SendFail(n, cancelled, error) => SendFailKeepsInv(s, n, cancelled, error);
    case Receive(w, now) => DeliverKeepsInv(s, w, now);
    case Interrupt(n, why) => InterruptKeepsInv(s, n, why);
    case Wake(n, shown) => WakeKeepsInv(s, n, shown);
    case ProbeUnsent(n, cancelled) => ProbeUnsentKeepsInv(s, n, cancelled);
    case Disconnect => FlushKeepsInv(s, "PPSSPP WebSocket disconnected");
    case CloseFlush => FlushKeepsInv(s, "WebSocket closed");
    case _ => OffsideKeepsInv(s, a);
  }
}
