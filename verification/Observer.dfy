/** The observer and its subscriptions as objects; the ghost model ties them to `Broadcasts`. */
module Observer {
  import opened Text
  import opened Queues
  import opened Broadcasts

  class SteppingSubscription {
    const id: nat
    var queue: seq<Cast>
    var closed: bool

    constructor (id: nat)
      ensures this.id == id && queue == [] && !closed
    {
      this.id := id;
      queue, closed := [], false;
    }

    /** Dispatcher hook: enqueue without blocking, dropping the oldest broadcast when full. */
    method Offer(msg: Cast)
      modifies this`queue
      ensures queue == if closed then old(queue) else Put(SUBSCRIPTION_CAP, old(queue), msg)
    {
      if closed { return; }
      if |queue| < SUBSCRIPTION_CAP {
        queue := queue + [msg];
      } else {
        queue := queue[1..];
        queue := queue + [msg];
      }
    }

    /** One poll: the oldest buffered broadcast, or None when nothing arrived in time. */
    method Get() returns (msg: Option<Cast>)
      modifies this`queue
      ensures msg.None? <==> old(queue) == []
      ensures msg.Some? ==> [msg.value] + queue == old(queue)
      ensures msg.None? ==> queue == []
    {
      if queue == [] { return None; }
      msg := Some(queue[0]);
      queue := queue[1..];
    }

    method Drain() returns (dropped: nat)
      modifies this`queue
      ensures queue == [] && dropped == |old(queue)|
    {
      dropped := 0;
      while queue != []
        invariant dropped + |queue| == |old(queue)|
        decreases |queue|
      {
        queue := queue[1..];
        dropped := dropped + 1;
      }
    }
  }

  /** The observer's own fields against the model. */
  ghost predicate QueuesFit(queues: map<Event, seq<Cast>>, game: Game, received: nat, events: seq<Cast>, m: State) {
    && game == m.game && CpuResume in queues && events == m.events && received == |m.wire|
    && (forall e | e in queues :: Queue(e) in m.boxes && m.boxes[Queue(e)].open && m.boxes[Queue(e)].queue == queues[e])
    && (forall e | Queue(e) in m.boxes :: e in queues)
  }

  /** Every per-event queue is offered the frame. */
  ghost predicate Filed(queues: map<Event, seq<Cast>>, queues': map<Event, seq<Cast>>, m: State, msg: Cast)
    requires forall e | e in queues :: Queue(e) in m.boxes
  {
    queues'.Keys == queues.Keys && forall e | e in queues :: queues'[e] == Offer(Queue(e), m.boxes[Queue(e)], msg).queue
  }

  lemma DispatchFits(queues: map<Event, seq<Cast>>, queues': map<Event, seq<Cast>>, game: Game, received: nat,
                     events: seq<Cast>, m: State)
    requires QueuesFit(queues, game, received, events, m) && events != [] && Filed(queues, queues', m, events[0])
    ensures QueuesFit(queues', Transition(game, events[0].event), received, events[1..], Step(m, Action.Dispatch))
  {
    DispatchOffersEverywhere(m);
    forall e | e in queues ensures Offer(Queue(e), m.boxes[Queue(e)], events[0]).open {
      OfferKeepsOpen(Queue(e), m.boxes[Queue(e)], events[0]);
    }
  }

  /** Taking from one per-event queue. */
  lemma TakeFits(queues: map<Event, seq<Cast>>, game: Game, received: nat, events: seq<Cast>, m: State, event: Event)
    requires QueuesFit(queues, game, received, events, m) && event in queues
    ensures var rest := if queues[event] == [] then [] else queues[event][1..];
      QueuesFit(queues[event := rest], game, received, events, Step(m, Take(Queue(event))))
    ensures forall id | Subscriber(id) in m.boxes ::
      && Subscriber(id) in Step(m, Take(Queue(event))).boxes
      && Step(m, Take(Queue(event))).boxes[Subscriber(id)] == m.boxes[Subscriber(id)]
    ensures forall id | Subscriber(id) in Step(m, Take(Queue(event))).boxes :: Subscriber(id) in m.boxes
  {}

  /** The subscriptions against the model. */
  ghost predicate SubscriptionsFit(known: map<nat, SteppingSubscription>, m: State)
    reads known.Values
  {
    && (forall id | id in known ::
          && known[id].id == id && Subscriber(id) in m.boxes
          && m.boxes[Subscriber(id)].queue == known[id].queue
          && (m.boxes[Subscriber(id)].open <==> !known[id].closed))
    && (forall id | Subscriber(id) in m.boxes :: id in known)
  }

  lemma SubscribeFits(queues: map<Event, seq<Cast>>, game: Game, received: nat, events: seq<Cast>, m: State, id: nat)
    requires QueuesFit(queues, game, received, events, m)
    ensures QueuesFit(queues, game, received, events, Step(m, Subscribe(id)))
  {}

  lemma SubscribedFits(known: map<nat, SteppingSubscription>, m: State, sub: SteppingSubscription)
    requires SubscriptionsFit(known, m) && sub.id !in known && sub.queue == [] && !sub.closed
    ensures SubscriptionsFit(known[sub.id := sub], Step(m, Subscribe(sub.id)))
  {}

  /** Every subscription has been offered the next broadcast. */
  ghost predicate Offered(known: map<nat, SteppingSubscription>, m: State)
    requires m.events != []
    reads known.Values
  {
    && (forall id | id in known ::
          && known[id].id == id && Subscriber(id) in m.boxes
          && known[id].queue == Offer(Subscriber(id), m.boxes[Subscriber(id)], m.events[0]).queue
          && (m.boxes[Subscriber(id)].open <==> !known[id].closed))
    && (forall id | Subscriber(id) in m.boxes :: id in known)
  }

  lemma OfferedFits(known: map<nat, SteppingSubscription>, m: State)
    requires m.events != [] && Offered(known, m)
    ensures SubscriptionsFit(known, Step(m, Action.Dispatch))
  {
    DispatchOffersEverywhere(m);
    forall id | id in known
      ensures Offer(Subscriber(id), m.boxes[Subscriber(id)], m.events[0]).open == m.boxes[Subscriber(id)].open
    {
      OfferKeepsOpen(Subscriber(id), m.boxes[Subscriber(id)], m.events[0]);
    }
  }

  class GameStateObserver {
    var game: Game
    var received: nat
    var events: seq<Cast>  // the transport's queue, whose only reader is the dispatcher
    var queues: map<Event, seq<Cast>>
    var subscribers: seq<SteppingSubscription>
    ghost var model: State
    ghost var known: map<nat, SteppingSubscription>

    ghost predicate QueuesMatch()
      reads this
    {
      QueuesFit(queues, game, received, events, model)
    }

    ghost predicate SubscriptionsMatch()
      reads this, known.Values
    {
      SubscriptionsFit(known, model)
    }

    /** The subscriber list holds exactly the open subscriptions, each once. */
    ghost predicate ListMatches()
      reads this, known.Values
    {
      && (forall s | s in subscribers :: s in known.Values && !s.closed)
      && (forall i, j | 0 <= i < j < |subscribers| :: subscribers[i] != subscribers[j])
      && (forall id | id in known && !known[id].closed :: known[id] in subscribers)
    }

    ghost predicate Valid()
      reads this, known.Values
    {
      QueuesMatch() && SubscriptionsMatch() && ListMatches()
    }

    constructor ()
      ensures Valid() && model == Init && known == map[]
    {
      game, received, events := Loading, 0, [];
      queues := map e | e in EVENTS :: [];
      subscribers := [];
      model := Init;
      known := map[];
    }

    method SubscribeStepping(id: nat) returns (sub: SteppingSubscription)
      requires Valid() && id !in known
      modifies this
      ensures Valid() && fresh(sub) && known == old(known)[id := sub]
      ensures model == Step(old(model), Subscribe(id))
    {
      sub := new SteppingSubscription(id);
      assert sub !in known.Values;
      SubscribeFits(queues, game, received, events, model, id);
      SubscribedFits(known, model, sub);
      subscribers := subscribers + [sub];
      model := Step(model, Subscribe(id));
      known := known[id := sub];
    }

    /** The receive loop files a broadcast in the transport's queue, dropping the oldest when it is full. */
    method Arrive(event: Event)
      requires Valid()
      modifies this`received, this`events, this`model
      ensures Valid() && known == old(known)
      ensures model == Step(old(model), Action.Arrive(event))
    {
      if |events| >= WIRE_CAP { events := events[1..]; }
      events := events + [Cast(received, event)];
      received := received + 1;
      model := Step(model, Action.Arrive(event));
    }

    /** The dispatcher takes the next transport broadcast and fans it out. */
    method Dispatch()
      requires Valid() && events != []
      modifies this, set s | s in subscribers :: s`queue
      ensures Valid() && known == old(known)
      ensures model == Step(old(model), Action.Dispatch)
    {
      var msg := events[0];
      ghost var before := queues;
      HandOut(msg);
      DispatchFits(before, queues, game, received, events, model);
      OfferedFits(known, model);
      Advance(msg.event);
    }

    /** What is left of the turn once the frame is handed out. */
    method Advance(event: Event)
      requires events != []
      requires QueuesFit(queues, Transition(game, event), received, events[1..], Step(model, Action.Dispatch))
      requires SubscriptionsFit(known, Step(model, Action.Dispatch)) && ListMatches()
      modifies this`game, this`events, this`model
      ensures Valid() && model == Step(old(model), Action.Dispatch)
    {
      game := Transition(game, event);
      events := events[1..];
      model := Step(model, Action.Dispatch);
    }

    /** To the queue of its event and to the subscriptions. */
    method HandOut(msg: Cast)
      requires Valid() && events != [] && msg == events[0]
      modifies this`queues, set s | s in subscribers :: s`queue
      ensures Filed(old(queues), queues, model, msg) && Offered(known, model) && ListMatches()
    {
      File(msg);
      FanOut(msg);
    }

    /** Into the queue of its event, if there is one. */
    method File(msg: Cast)
      requires forall e | e in queues :: Queue(e) in model.boxes && model.boxes[Queue(e)].open
      requires forall e | e in queues :: model.boxes[Queue(e)].queue == queues[e]
      modifies this`queues
      ensures Filed(old(queues), queues, model, msg)
    {
      if msg.event in queues {
        var q := queues[msg.event];
        if |q| >= EVENT_CAP { q := q[1..]; }
        queues := queues[msg.event := q + [msg]];
      }
    }

    /** A stepping broadcast also goes to every subscription in the list. */
    method FanOut(msg: Cast)
      requires SubscriptionsMatch() && ListMatches() && model.events != [] && msg == model.events[0]
      modifies set s | s in subscribers :: s`queue
      ensures Offered(known, model)
    {
      if msg.event.CpuStepping? {
        for i := 0 to |subscribers|
          invariant forall k | 0 <= k < i ::
            subscribers[k].queue == Put(SUBSCRIPTION_CAP, old(subscribers[k].queue), msg)
          invariant forall k | i <= k < |subscribers| :: subscribers[k].queue == old(subscribers[k].queue)
          invariant forall s | s in known.Values && s !in subscribers :: s.queue == old(s.queue)
        {
          assert subscribers[i] in subscribers;
          subscribers[i].Offer(msg);
        }
      }
    }

    /** Close detaches the subscription from the list; a second close changes nothing. */
    method CloseSubscription(sub: SteppingSubscription)
      requires Valid() && sub.id in known && known[sub.id] == sub
      modifies this, sub`closed
      ensures Valid() && known == old(known) && sub.closed
      ensures model == Step(old(model), Close(sub.id))
    {
      if !sub.closed {
        Detach(sub);
        sub.closed := true;
      }
      model := Step(model, Close(sub.id));
    }

    method Detach(sub: SteppingSubscription)
      requires sub in subscribers && forall i, j | 0 <= i < j < |subscribers| :: subscribers[i] != subscribers[j]
      modifies this`subscribers
      ensures forall s :: s in subscribers <==> s in old(subscribers) && s != sub
      ensures forall i, j | 0 <= i < j < |subscribers| :: subscribers[i] != subscribers[j]
    {
      var i := 0;
      while subscribers[i] != sub
        invariant 0 <= i < |subscribers| && sub !in subscribers[..i]
        invariant subscribers == old(subscribers)
        decreases |subscribers| - i
      {
        i := i + 1;
        assert sub in subscribers[i..] by { assert subscribers == subscribers[..i] + subscribers[i..]; }
      }
      subscribers := subscribers[..i] + subscribers[i + 1..];
    }

    /** A subscriber polls its own queue. */
    method Poll(sub: SteppingSubscription) returns (msg: Option<Cast>)
      requires Valid() && sub.id in known && known[sub.id] == sub
      modifies this`model, sub`queue
      ensures Valid() && model == Step(old(model), Action.Take(Subscriber(sub.id)))
      ensures msg.Some? ==>
        model.boxes[Subscriber(sub.id)].got == old(model).boxes[Subscriber(sub.id)].got + [msg.value]
    {
      msg := sub.Get();
      model := Step(model, Action.Take(Subscriber(sub.id)));
    }

    /** `wait_for_resume` and `wait_for_step_broadcast` take from one per-event queue. */
    method TakeFrom(event: Event) returns (msg: Option<Cast>)
      requires Valid() && event in queues
      modifies this`queues, this`model
      ensures Valid() && model == Step(old(model), Action.Take(Queue(event)))
      ensures msg.None? <==> old(queues)[event] == []
      ensures msg.Some? ==> msg.value == old(queues)[event][0]
    {
      var q := queues[event];
      TakeFits(queues, game, received, events, model, event);
      if q == [] {
        msg := None;
        assert queues[event := []] == queues;
      } else {
        msg := Some(q[0]);
        queues := queues[event := q[1..]];
      }
      model := Step(model, Action.Take(Queue(event)));
    }

    method DrainResume()
      requires Valid()
      modifies this`queues, this`model
      ensures Valid() && model == Step(old(model), DrainBox(Queue(CpuResume))) && queues[CpuResume] == []
    {
      var q := queues[CpuResume];
      while q != []
        decreases |q|
      {
        q := q[1..];
      }
      queues := queues[CpuResume := q];
      model := Step(model, DrainBox(Queue(CpuResume)));
    }
  }
}
