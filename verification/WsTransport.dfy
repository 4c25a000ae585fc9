/** The transport object: its fields are updated in place, each method is one await-free segment. */
module WsTransportObject {
  import opened Text
  import opened Queues
  import opened Transport
  import opened TransportInvariant
  import opened EventQueue

  class WsTransport {
    var ticketCounter: nat
    var calls: map<nat, Call>
    var pending: map<string, nat>
    var events: seq<Frame>
    var eventsDropped: nat
    var versions: seq<Frame>
    var ffTickets: seq<string>
    var ring: seq<nat>
    var probing: bool
    var receiving: bool
    var mislogged: nat

    ghost function View(): State
      reads this
    {
      State(ticketCounter, calls, pending, events, eventsDropped, versions, ffTickets,
            ring, probing, receiving, mislogged)
    }

    constructor ()
      ensures View() == Init && Inv(View())
    {
      ticketCounter, calls, pending := 0, map[], map[];
      events, eventsDropped, versions, ffTickets, ring := [], 0, [], [], [];
      probing, receiving, mislogged := false, false, 0;
    }

    /** First half of `call`: allot a ticket, enter the table, open a record. */
    method BeginCall(event: string, parent: Option<nat>) returns (ticket: string)
      requires Inv(View()) && Enabled(View(), Begin(event, parent))
      modifies this
      ensures View() == Step(old(View()), Begin(event, parent)) && Inv(View())
      ensures ticket == Ticket(ticketCounter) && ticket !in old(pending)
    {
      ghost var s := View();
      ticketCounter := ticketCounter + 1;
      ticket := Ticket(ticketCounter);
      calls := calls[ticketCounter := Call(event, parent, Sending, Unresolved, None, Fresh)];
      pending := pending[ticket := ticketCounter];
      if |ring| >= RING_CAPACITY { ring := ring[1..]; }
      ring := ring + [ticketCounter];
      StepKeepsInv(s, Begin(event, parent));
      NextTicketUnused(s);
    }

    method FireAndForgetSend() returns (ticket: string)
      requires Inv(View())
      modifies this
      ensures View() == Step(old(View()), FireAndForget) && Inv(View())
    {
      ghost var s := View();
      ticketCounter := ticketCounter + 1;
      ticket := Ticket(ticketCounter);
      if |ffTickets| >= FIRE_AND_FORGET_MEMORY { ffTickets := ffTickets[1..]; }
      ffTickets := ffTickets + [ticket];
      StepKeepsInv(s, FireAndForget);
    }

    method PutEvent(data: Frame)
      modifies this`events, this`eventsDropped
      ensures View() == Transport.PutEvent(old(View()), data)
    {
      if |events| >= EVENTS_QUEUE_MAX {
        events := events[1..];
        eventsDropped := eventsDropped + 1;
      }
      events := events + [data];
    }

    /** Put a batch into the broadcast queue, oldest first. */
    method Requeue(backlog: seq<Frame>)
      requires |events| <= EVENTS_QUEUE_MAX
      modifies this`events, this`eventsDropped
      ensures events == PutAll(EVENTS_QUEUE_MAX, old(events), backlog)
      ensures eventsDropped == old(eventsDropped) + |Overflow(old(events), backlog)|
      ensures |events| <= EVENTS_QUEUE_MAX
    {
      ghost var q := events;
      for i := 0 to |backlog|
        invariant |events| <= EVENTS_QUEUE_MAX
        invariant PutAll(EVENTS_QUEUE_MAX, q, backlog) == PutAll(EVENTS_QUEUE_MAX, events, backlog[i..])
        invariant eventsDropped + |events| == old(eventsDropped) + |q| + i
      {
        PutEvent(backlog[i]);
      }
      OverflowSplits(q, backlog);
    }

    /** `wait_for_broadcast`; `rounds` is what the rest of the program does while it waits. */
    method WaitForBroadcast(want: Frame -> bool, rounds: seq<Round>) returns (got: Option<Frame>)
      requires |events| <= EVENTS_QUEUE_MAX
      modifies this`events, this`eventsDropped
      ensures got == Wait(old(events), rounds, want).got
      ensures events == Requeued(Wait(old(events), rounds, want))
      ensures eventsDropped == old(eventsDropped) + |LostInAll(Wait(old(events), rounds, want))|
    {
      got := None;
      var backlog: seq<Frame> := [];
      ghost var q, d := events, Begun(events);
      var i := 0;
      while i < |rounds|
        invariant 0 <= i <= |rounds| && |events| <= EVENTS_QUEUE_MAX
        invariant d.queue == events && d.skipped == backlog && d.got == got && !d.over
        invariant eventsDropped == old(eventsDropped) + |d.lost|
        invariant Passes(d, rounds[i..], want) == Wait(q, rounds, want)
      {
        assert rounds[i..][0] == rounds[i] && rounds[i..][1..] == rounds[i + 1..];
        d := Pass(d, rounds[i], want);
        Requeue(rounds[i].arrivals);
        if rounds[i].expired { assert d.over; break; }
        if events != [] {
          var msg := events[0];
          events := events[1..];
          if want(msg) { got := Some(msg); break; }
          backlog := backlog + [msg];
        }
        i := i + 1;
      }
      assert d == Wait(q, rounds, want);
      Requeue(backlog);
    }

    method NoteBroadcast(event: string, now: real)
      requires QueuesOk(View())
      modifies this`calls
      ensures View() == Transport.NoteBroadcast(old(View()), event, now)
    {
      ghost var s := View();
      for i := 0 to |ring|
        invariant calls.Keys == s.calls.Keys
        invariant forall n | n in s.calls ::
          calls[n] == if n in ring[..i] && Stamped(s, n, event) then Stamp(s.calls[n], now) else s.calls[n]
      {
        var n := ring[i];
        assert ring[..i + 1] == ring[..i] + [n];
        assert n in s.calls;
        if !calls[n].record.settled && calls[n].event == event {
          calls := calls[n := Stamp(calls[n], now)];
        }
      }
      assert ring[..|ring|] == ring;
    }

    /** A frame whose ticket is in the table: pop it and resolve its future. */
    method DispatchMatched(f: Frame)
      requires Matched(View(), f) && pending[f.ticket.value] in calls
      modifies this`pending, this`calls, this`mislogged
      ensures View() == Respond(old(View()), f)
    {
      var n := pending[f.ticket.value];
      pending := pending - {f.ticket.value};
      var future := calls[n].future;
      if f.event == "error" {
        if future.Unresolved? { calls := calls[n := calls[n].(future := Failure(f.body))]; }
        else { mislogged := mislogged + 1; }
      } else if !future.Dead? {
        if future.Unresolved? { calls := calls[n := calls[n].(future := Answer(f))]; }
        else { mislogged := mislogged + 1; }
      }
    }

    /** Any other frame: diagnostic evidence unless it echoes our own send, then a broadcast. */
    method DispatchUnmatched(f: Frame, now: real)
      requires QueuesOk(View())
      modifies this`calls, this`versions, this`events, this`eventsDropped
      ensures View() == Unmatched(old(View()), f, now)
    {
      if !(f.ticket.Some? && f.ticket.value != "" && f.ticket.value in ffTickets) {
        NoteBroadcast(f.event, now);
      }
      if f.event == "version" {
        if |versions| >= VERSION_QUEUE_MAX { versions := versions[1..]; }
        versions := versions + [f];
      } else {
        PutEvent(f);
      }
    }

    /** The receive loop's handling of one message. */
    method HandleMessage(wire: Wire, now: real)
      requires Inv(View()) && receiving
      modifies this
      ensures View() == Step(old(View()), Receive(wire, now)) && Inv(View())
    {
      StepKeepsInv(View(), Receive(wire, now));
      match wire
      case Malformed => mislogged := mislogged + 1;
      case Data(f) =>
        if f.ticket.Some? && f.ticket.value != "" && f.ticket.value in pending {
          assert EntryOk(View(), f.ticket.value);
          DispatchMatched(f);
        } else {
          DispatchUnmatched(f, now);
        }
    }

    /** Fail every future still in the table, then forget the table. */
    method FailPending(error: string)
      requires pending.Values <= calls.Keys
      modifies this`calls, this`pending
      ensures View() == FailAll(old(View()), error)
    {
      ghost var ids := pending.Values;
      var todo := pending.Values;
      pending := map[];
      assert calls == FailSome(calls, ids - todo, error);
      while todo != {}
        invariant pending == map[] && todo <= ids <= old(calls).Keys
        invariant calls == FailSome(old(calls), ids - todo, error)
      {
        var n :| n in todo;
        FailOneMore(old(calls), ids - todo, n, error);
        assert ids - (todo - {n}) == ids - todo + {n};
        if calls[n].future.Unresolved? { calls := calls[n := calls[n].(future := Failure(error))]; }
        todo := todo - {n};
      }
      assert ids - todo == ids;
    }

    method Disconnected()
      requires Inv(View()) && receiving
      modifies this
      ensures View() == Step(old(View()), Disconnect) && Inv(View()) && pending == map[]
    {
      StepKeepsInv(View(), Disconnect);
      TableNamesCalls(View());
      FailPending("PPSSPP WebSocket disconnected");
      receiving := false;
    }

    method Close()
      requires Inv(View())
      modifies this
      ensures View() == Step(old(View()), CloseFlush) && Inv(View()) && pending == map[]
    {
      StepKeepsInv(View(), CloseFlush);
      TableNamesCalls(View());
      receiving := false;
      FailPending("WebSocket closed");
    }

    /** The probe of call `p` is over. */
    method EndProbe(p: nat, outcome: Outcome)
      requires p in calls && calls[p].phase.Probing?
      modifies this`calls, this`probing
      ensures View() == ProbeOver(old(View()), p, outcome)
    {
      var c := calls[p];
      probing := false;
      if outcome.Aborted? {
        calls := calls[p := c.(phase := Done(Aborted))];
      } else {
        var stepping := if outcome.Returned? then outcome.frame.stepping else None;
        var record := Settle(c.record, true, TimeoutText(c.phase.shown), stepping);
        calls := calls[p := c.(phase := Done(TimedOut), record := record)];
      }
    }

    method EndCall(n: nat, e: End)
      requires n in calls
      modifies this`calls, this`pending, this`probing
      ensures View() == Finish(old(View()), n, e)
    {
      pending := pending - {Ticket(n)};
      var record := Settle(calls[n].record, e.timedOut, e.error, None);
      calls := calls[n := calls[n].(phase := Done(e.outcome), record := record)];
      var parent := calls[n].parent;
      if parent.Some? && parent.value in calls && calls[parent.value].phase.Probing? {
        EndProbe(parent.value, e.outcome);
      }
    }

    /** A timed-out caller gives up its ticket and takes the probe latch. */
    method BeginProbe(n: nat, shown: string)
      requires n in calls
      modifies this`pending, this`probing, this`calls
      ensures View() == StartProbe(old(View()), n, shown)
    {
      pending := pending - {Ticket(n)};
      probing := true;
      calls := calls[n := calls[n].(phase := Probing(shown))];
    }

    /** Second half of `call`: the awaiting coroutine runs again. */
    method ResumeCaller(n: nat, shown: string)
      requires Inv(View()) && Enabled(View(), Wake(n, shown))
      modifies this
      ensures View() == Step(old(View()), Wake(n, shown)) && Inv(View())
      ensures Ticket(n) !in pending
    {
      StepKeepsInv(View(), Wake(n, shown));
      if calls[n].stop == Some(Deadline) && !probing {
        BeginProbe(n, shown);
      } else {
        EndCall(n, EndOf(calls[n], shown));
      }
      FinishedLeavesTable(View(), n);
    }

    method SendFailed(n: nat, cancelled: bool, error: string)
      requires Inv(View()) && Enabled(View(), SendFail(n, cancelled, error))
      modifies this
      ensures View() == Step(old(View()), SendFail(n, cancelled, error)) && Inv(View())
      ensures Ticket(n) !in pending
    {
      StepKeepsInv(View(), SendFail(n, cancelled, error));
      EndCall(n, EndOfSend(cancelled, error));
      FinishedLeavesTable(View(), n);
    }

    /** A connection is up: `connect` starts the receive loop. */
    method Connected()
      requires Inv(View())
      modifies this
      ensures View() == Step(old(View()), Reconnect) && Inv(View())
    {
      StepKeepsInv(View(), Reconnect);
      receiving := true;
    }

    /** The loop condition finds the socket no longer open; nobody is told. */
    method LeaveLoop()
      requires Inv(View())
      modifies this
      ensures View() == Step(old(View()), LoopExit) && Inv(View())
    {
      StepKeepsInv(View(), LoopExit);
      receiving := false;
    }

    /** The send of call `n` is through; it starts to wait for its future. */
    method SendCompleted(n: nat)
      requires Inv(View()) && Enabled(View(), Sent(n))
      modifies this
      ensures View() == Step(old(View()), Sent(n)) && Inv(View())
    {
      StepKeepsInv(View(), Sent(n));
      calls := calls[n := calls[n].(phase := Waiting)];
    }

    /** The timer or a cancellation of a waiting call: an unresolved future is dead from now on. */
    method InterruptWait(n: nat, why: Stop)
      requires Inv(View()) && Enabled(View(), Interrupt(n, why))
      modifies this
      ensures View() == Step(old(View()), Interrupt(n, why)) && Inv(View())
    {
      StepKeepsInv(View(), Interrupt(n, why));
      var c := calls[n];
      calls := calls[n := c.(stop := Some(why), future := if c.future.Unresolved? then Dead else c.future)];
    }

    /** The probe of call `n` ends before it became a call: connecting failed or was cancelled. */
    method ProbeNotSent(n: nat, cancelled: bool)
      requires Inv(View()) && Enabled(View(), ProbeUnsent(n, cancelled))
      modifies this
      ensures View() == Step(old(View()), ProbeUnsent(n, cancelled)) && Inv(View())
    {
      StepKeepsInv(View(), ProbeUnsent(n, cancelled));
      EndProbe(n, if cancelled then Aborted else Raised(""));
    }

    /** The dispatcher takes the oldest broadcast. */
    method TakeBroadcast() returns (f: Frame)
      requires Inv(View()) && events != []
      modifies this
      ensures View() == Step(old(View()), TakeEvent) && Inv(View())
      ensures [f] + events == old(events)
    {
      StepKeepsInv(View(), TakeEvent);
      f := events[0];
      events := events[1..];
    }
  }
}
