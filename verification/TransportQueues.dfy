/** Where the transport files the frames no call claims: version replies apart, everything else for the
  * dispatcher; which tickets it remembers; and when it receives. */
module TransportQueues {
  import opened Queues
  import opened Transport
  import opened TransportInvariant
  import opened TransportRuns

  /** The frame a step receives that matches no pending ticket, if it is (or is not) a version reply. */
  function Unclaimed(s: State, a: Action, version: bool): seq<Frame> {
    if a.Receive? && a.wire.Data? && !Matched(s, a.wire.frame) && ((a.wire.frame.event == "version") <==> version)
    then [a.wire.frame] else []
  }

  /** All of them during the first `k` actions. */
  function AllUnclaimed(states: seq<State>, acts: seq<Action>, k: nat, version: bool): seq<Frame>
    requires k <= |acts| < |states|
  {
    if k == 0 then []
    else AllUnclaimed(states, acts, k - 1, version) + Unclaimed(states[k - 1], acts[k - 1], version)
  }

  function Taken(acts: seq<Action>, k: nat): nat
    requires k <= |acts|
  {
    if k == 0 then 0 else Taken(acts, k - 1) + if acts[k - 1].TakeEvent? then 1 else 0
  }

  lemma FinishKeepsQueues(s: State, n: nat, e: End)
    requires n in s.calls
    ensures var t := Finish(s, n, e); t.events == s.events && t.versions == s.versions && t.dropped == s.dropped
  {}

  lemma RespondKeepsQueues(s: State, f: Frame)
    requires Matched(s, f)
    ensures var t := Respond(s, f); t.events == s.events && t.versions == s.versions && t.dropped == s.dropped
  {}

  lemma PutOne(n: nat, q: seq<Frame>, f: Frame)
    requires n > 0
    ensures PutAll(n, q, [f]) == Put(n, q, f) && PutAll(n, q, []) == q
  {
    assert [f][1..] == [];
  }

  lemma FiledQueues(s: State, f: Frame)
    ensures var t := Filed(s, f);
      if f.event == "version"
      then t.versions == PutAll(8, s.versions, [f]) && t.events == s.events && t.dropped == s.dropped
      else t.versions == s.versions && t.events == PutAll(256, s.events, [f])
           && t.dropped == s.dropped + if |s.events| >= 256 then 1 else 0
  {
    PutOne(8, s.versions, f);
    PutOne(256, s.events, f);
  }

  lemma DeliverQueues(s: State, w: Wire, now: real)
    ensures var t, a := Deliver(s, w, now), Receive(w, now);
      && t.versions == PutAll(8, s.versions, Unclaimed(s, a, true))
      && t.events == PutAll(256, s.events, Unclaimed(s, a, false))
      && t.dropped == s.dropped + if Unclaimed(s, a, false) != [] && |s.events| >= 256 then 1 else 0
  {
    if w.Data? {
      var f := w.frame;
      if Matched(s, f) {
        RespondKeepsQueues(s, f);
      } else {
        FiledQueues(s, f);
        FiledQueues(NoteBroadcast(s, f.event, now), f);
      }
    }
  }

  /** What one step does to the two queues. */
  lemma QueueStep(s: State, a: Action)
    requires Enabled(s, a)
    ensures var t := Step(s, a);
      && t.versions == PutAll(8, s.versions, Unclaimed(s, a, true))
      && t.events == (if a.TakeEvent? then s.events[1..] else PutAll(256, s.events, Unclaimed(s, a, false)))
      && t.dropped == s.dropped + if Unclaimed(s, a, false) != [] && |s.events| >= 256 then 1 else 0
  {
    match a
    case SendFail(n, cancelled, error) => FinishKeepsQueues(s, n, EndOfSend(cancelled, error));
    case Wake(n, shown) => FinishKeepsQueues(s, n, EndOf(s.calls[n], shown));
    case Receive(w, now) => DeliverQueues(s, w, now);
    case _ =>
  }

  lemma NewestGrows(n: nat, all: seq<Frame>, q: seq<Frame>, x: seq<Frame>)
    requires n > 0 && |x| <= 1 && q == LastN(n, all)
    ensures PutAll(n, q, x) == LastN(n, all + x)
  {
    PutAllKeepsNewest(n, q, x);
  }

  /** The version queue holds the newest 8 unclaimed version replies. */
  lemma {:induction false} VersionsExact(states: seq<State>, acts: seq<Action>, k: nat)
    requires Execution(states, acts) && k < |states|
    ensures states[k].versions == LastN(8, AllUnclaimed(states, acts, k, true))
  {
    if k > 0 {
      var j := k - 1;
      VersionsExact(states, acts, j);
      assert Linked(states, acts, j);
      QueueStep(states[j], acts[j]);
      NewestGrows(8, AllUnclaimed(states, acts, j, true), states[j].versions, Unclaimed(states[j], acts[j], true));
    }
  }

  lemma SuffixGrows(all: seq<Frame>, q: seq<Frame>, x: seq<Frame>)
    requires |x| <= 1 && |q| <= 256 && |q| <= |all| && q == LastN(|q|, all)
    ensures var p := PutAll(256, q, x);
      && |p| <= 256 && |p| <= |all + x| && p == LastN(|p|, all + x)
      && |p| + (if x != [] && |q| >= 256 then 1 else 0) == |q| + |x|
  {
    PutAllKeepsNewest(256, q, x);
  }

  /** The broadcast queue holds the newest part of all other unclaimed frames, at most 256; the rest was taken
    * or is counted as dropped. */
  lemma {:induction false} EventsExact(states: seq<State>, acts: seq<Action>, k: nat)
    requires Execution(states, acts) && k < |states|
    ensures var s, all := states[k], AllUnclaimed(states, acts, k, false);
      && |s.events| <= 256 && |s.events| <= |all| && s.events == LastN(|s.events|, all)
      && |all| == |s.events| + Taken(acts, k) + s.dropped
  {
    if k > 0 {
      var j := k - 1;
      EventsExact(states, acts, j);
      assert Linked(states, acts, j);
      QueueStep(states[j], acts[j]);
      SuffixGrows(AllUnclaimed(states, acts, j, false), states[j].events, Unclaimed(states[j], acts[j], false));
    }
  }

  /** The tickets of the sends that await no answer, in order. */
  function Echoes(states: seq<State>, acts: seq<Action>, k: nat): seq<string>
    requires k <= |acts| < |states|
  {
    if k == 0 then []
    else Echoes(states, acts, k - 1) +
         if acts[k - 1].FireAndForget? then [Ticket(states[k - 1].counter + 1)] else []
  }

  /** Since the last action that opened or ended the connection the receive loop is alive or not. */
  function Receiving(acts: seq<Action>, k: nat): bool
    requires k <= |acts|
  {
    if k == 0 then false
    else match acts[k - 1]
      case Reconnect => true
      case Disconnect => false
      case LoopExit => false
      case CloseFlush => false
      case _ => Receiving(acts, k - 1)
  }

  lemma FinishKeepsLink(s: State, n: nat, e: End)
    requires n in s.calls
    ensures var t := Finish(s, n, e); t.echoes == s.echoes && t.receiving == s.receiving
  {}

  lemma LinkStep(s: State, a: Action)
    requires Enabled(s, a)
    ensures var t := Step(s, a);
      && t.echoes == (if a.FireAndForget? then Put(64, s.echoes, Ticket(s.counter + 1)) else s.echoes)
      && t.receiving == match a
           case Reconnect => true
           case Disconnect => false
           case LoopExit => false
           case CloseFlush => false
           case _ => s.receiving
  {
    match a
    case SendFail(n, cancelled, error) => FinishKeepsLink(s, n, EndOfSend(cancelled, error));
    case Wake(n, shown) => FinishKeepsLink(s, n, EndOf(s.calls[n], shown));
    case _ =>
  }

  lemma OneMoreEcho(q: seq<string>, all: seq<string>, t: string)
    requires q == LastN(64, all)
    ensures Put(64, q, t) == LastN(64, all + [t])
  {}

  /** The transport remembers the newest 64 tickets it sent without waiting, and receives exactly from a connect
    * to the next disconnect, loop exit or close. */
  lemma {:induction false} LinkExact(states: seq<State>, acts: seq<Action>, k: nat)
    requires Execution(states, acts) && k < |states|
    ensures states[k].echoes == LastN(64, Echoes(states, acts, k)) && states[k].receiving == Receiving(acts, k)
  {
    if k > 0 {
      var j := k - 1;
      LinkExact(states, acts, j);
      assert Linked(states, acts, j);
      LinkStep(states[j], acts[j]);
      if acts[j].FireAndForget? {
        OneMoreEcho(states[j].echoes, Echoes(states, acts, j), Ticket(states[j].counter + 1));
      }
    }
  }
}
