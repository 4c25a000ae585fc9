/** The background-job registry: lifecycle, bounded retention of finished jobs, session lookup. */
module BatchJobs {
  import opened Text
  import opened Queues

  const RETENTION: nat := 32

  datatype Status = Queued | Running | Completed | Failed | Cancelled

  predicate Terminal(st: Status) { st.Completed? || st.Failed? || st.Cancelled? }

  /** Where a job's asyncio task is: before its first slot, inside `_run`, or over. */
  datatype Slot = Waiting | Executing | Over

  /** `hasTask`: the job still holds the strong reference that keeps its task alive. */
  datatype Job = Job(session: string, status: Status, hasTask: bool, slot: Slot)

  /** `heap` holds every job ever submitted, by id; `order` is the dict of retained jobs in insertion
    * order; `finished` is the retention queue; `history` notes every job as it becomes terminal. */
  datatype State = State(heap: seq<Job>, order: seq<nat>, finished: seq<nat>, history: seq<nat>)

  const Init: State := State([], [], [], [])

  datatype Action =
    | Submit(session: string)
    | Start(id: nat)                // the task gets its first slot
    | Finish(id: nat, how: Status)  // the runner returns, raises, or lets its cancellation through
    | Cancel(id: nat)

  datatype CancelResult = UnknownJob | AlreadyFinished | Requested

  function Without(order: seq<nat>, id: nat): seq<nat> {
    if order == [] then []
    else (if order[0] == id then [] else [order[0]]) + Without(order[1..], id)
  }

  function DropTask(heap: seq<Job>, id: nat): seq<Job> {
    if id < |heap| then heap[id := heap[id].(hasTask := false)] else heap
  }

  function EvictOldest(s: State): State
    requires s.finished != []
  {
    var oldest := s.finished[0];
    if oldest in s.order
    then s.(heap := DropTask(s.heap, oldest), order := Without(s.order, oldest), finished := s.finished[1..])
    else s.(finished := s.finished[1..])
  }

  function Evict(s: State): State
    decreases |s.finished|
  {
    if |s.finished| <= RETENTION then s else Evict(EvictOldest(s))
  }

  function Settle(s: State, id: nat, how: Status): State
    requires id < |s.heap|
  {
    s.(heap := s.heap[id := s.heap[id].(status := how, slot := Over)], finished := s.finished + [id],
       history := s.history + [id])
  }

  function CancelOutcome(s: State, id: nat): CancelResult
    requires forall k | k in s.order :: k < |s.heap|
  {
    if id !in s.order then UnknownJob else if Terminal(s.heap[id].status) then AlreadyFinished else Requested
  }

  predicate Enabled(s: State, a: Action) {
    match a
    case Start(id) => id < |s.heap| && s.heap[id].slot.Waiting?
    case Finish(id, how) => id < |s.heap| && s.heap[id].slot.Executing? && Terminal(how)
    case _ => true
  }

  /** Cancelling a waiting task means `_run` never executes; a running one only receives a request. */
  function Step(s: State, a: Action): State
    requires Enabled(s, a)
  {
    match a
    case Submit(session) => s.(heap := s.heap + [Job(session, Queued, true, Waiting)], order := s.order + [|s.heap|])
    case Start(id) => s.(heap := s.heap[id := s.heap[id].(status := Running, slot := Executing)])
    case Finish(id, how) => Evict(Settle(s, id, how))
    case Cancel(id) =>
      if id in s.order && id < |s.heap| && s.heap[id].status.Queued? then Evict(Settle(s, id, Cancelled)) else s
  }

  // ---------- invariant ----------

  predicate Ascending(s: seq<nat>) { forall i, j | 0 <= i < j < |s| :: s[i] < s[j] }

  predicate Distinct(s: seq<nat>) { forall i, j | 0 <= i < j < |s| :: s[i] != s[j] }

  /** One job against the registry around it. */
  predicate JobInv(s: State, id: nat)
    requires id < |s.heap|
  {
    var j := s.heap[id];
    && (j.slot.Waiting? <==> j.status.Queued?) && (j.slot.Executing? <==> j.status.Running?)
    && (Terminal(j.status) <==> id in s.history)
    // an unfinished job is retained, a finished one exactly while it is in the queue
    && (id in s.order <==> Terminal(j.status) ==> id in s.finished)
    && (j.hasTask <==> id in s.order)
  }

  predicate QueueInv(s: State) {
    && Ascending(s.order) && (forall id | id in s.order :: id < |s.heap|)
    && Distinct(s.history) && (forall id | id in s.history :: id < |s.heap|)
    && s.finished == LastN(RETENTION, s.history)
  }

  predicate Inv(s: State) {
    QueueInv(s) && forall id: nat | id < |s.heap| :: JobInv(s, id)
  }

  lemma AscendingTail(s: seq<nat>)
    requires Ascending(s) && s != []
    ensures Ascending(s[1..]) && forall x | x in s[1..] :: s[0] < x
  {}

  lemma AscendingCons(x: nat, s: seq<nat>)
    requires Ascending(s) && forall y | y in s :: x < y
    ensures Ascending([x] + s)
  {
    var t := [x] + s;
    forall i, j | 0 <= i < j < |t| ensures t[i] < t[j] {
      assert t[j] == s[j - 1] && (i > 0 ==> t[i] == s[i - 1]);
      assert s[j - 1] in s;
    }
  }

  lemma {:induction false} WithoutExact(order: seq<nat>, id: nat)
    requires Ascending(order)
    ensures Ascending(Without(order, id))
    ensures forall x :: x in Without(order, id) <==> x in order && x != id
  {
    if order != [] {
      AscendingTail(order);
      WithoutExact(order[1..], id);
      AscendingCons(order[0], Without(order[1..], id));
      assert forall x :: x in order <==> x == order[0] || x in order[1..];
    }
  }

  /** One more finish: the queue holds the newest finishes again, and what leaves is its old head. */
  lemma NewestPlusOne(h: seq<nat>, id: nat)
    requires Distinct(h) && id !in h
    ensures Distinct(h + [id])
    ensures var was, now := LastN(RETENTION, h), LastN(RETENTION, h + [id]);
      && (|h| < RETENTION ==> now == was + [id])
      && (|h| >= RETENTION ==> was != [] && now == (was + [id])[1..] && was[0] in h && was[0] !in now)
  {
    var was, now, all := LastN(RETENTION, h), LastN(RETENTION, h + [id]), h + [id];
    forall k | 0 <= k < |h| ensures h[k] != id { assert h[k] in h; }
    if |h| >= RETENTION {
      forall i | 0 <= i < |now| ensures now[i] != was[0] {
        assert all[|h| - RETENTION] == was[0] && now[i] == all[|h| - RETENTION + 1 + i];
      }
    }
  }

  /** A job that finishes is the last of the queue; at most the oldest finished job is evicted for it. */
  lemma SettleThenEvict(s: State, id: nat, how: Status)
    requires Inv(s) && id < |s.heap| && !Terminal(s.heap[id].status)
    ensures var t := Settle(s, id, how);
      Evict(t) == (if |s.finished| < RETENTION then t else EvictOldest(t))
  {}

  /** What concluding a job does to each job of the registry. */
  lemma ConcludedJob(s: State, id: nat, how: Status, k: nat)
    requires QueueInv(s) && id < |s.heap| && !Terminal(s.heap[id].status) && Terminal(how)
    requires JobInv(s, id) && k < |s.heap| && JobInv(s, k)
    requires s.finished != [] ==> s.finished[0] < |s.heap| && JobInv(s, s.finished[0])
    ensures var t := Settle(s, id, how);
      var u := if |s.finished| < RETENTION then t else EvictOldest(t);
      k < |u.heap| && JobInv(u, k)
  {
    var t := Settle(s, id, how);
    NewestPlusOne(s.history, id);
    if |s.finished| >= RETENTION { WithoutExact(s.order, s.finished[0]); }
    assert forall x :: x in t.history <==> x in s.history || x == id;
    assert forall x :: x in t.finished <==> x in s.finished || x == id;
  }

  lemma ConcludeKeepsInv(s: State, id: nat, how: Status)
    requires Inv(s) && id < |s.heap| && !Terminal(s.heap[id].status) && Terminal(how)
    ensures Inv(Evict(Settle(s, id, how)))
  {
    SettleThenEvict(s, id, how);
    assert JobInv(s, id);
    NewestPlusOne(s.history, id);
    if s.finished != [] { assert JobInv(s, s.finished[0]) by { assert s.finished[0] in s.history; } }
    if |s.finished| >= RETENTION { WithoutExact(s.order, s.finished[0]); }
    var u := Evict(Settle(s, id, how));
    forall k: nat | k < |u.heap| ensures JobInv(u, k) {
      assert JobInv(s, k);
      ConcludedJob(s, id, how, k);
    }
  }

  lemma StepKeepsInv(s: State, a: Action)
    requires Inv(s) && Enabled(s, a)
    ensures Inv(Step(s, a))
  {
    var t := Step(s, a);
    match a
    case Submit(_) =>
      assert forall k | 0 <= k < |s.order| :: s.order[k] in s.order;
      forall k: nat | k < |t.heap| ensures JobInv(t, k) {
        if k < |s.heap| { assert JobInv(s, k); }
      }
    case Start(id) =>
      forall k: nat | k < |t.heap| ensures JobInv(t, k) { assert JobInv(s, k); }
    case Finish(id, how) =>
      assert JobInv(s, id);
      ConcludeKeepsInv(s, id, how);
    case Cancel(id) =>
      if id in s.order && s.heap[id].status.Queued? { ConcludeKeepsInv(s, id, Cancelled); }
  }

  // ---------- runs ----------

  /** Any interleaving of submissions, starts, finishes and cancellations from the empty registry. */
  ghost predicate Execution(states: seq<State>, actions: seq<Action>) {
    && |states| == |actions| + 1 && states[0] == Init
    && forall i | 0 <= i < |actions| :: Linked(states, actions, i)
  }

  predicate Linked(states: seq<State>, actions: seq<Action>, i: nat)
    requires i < |actions| < |states|
  {
    Enabled(states[i], actions[i]) && states[i + 1] == Step(states[i], actions[i])
  }

  lemma {:induction false} InvariantAlways(states: seq<State>, actions: seq<Action>, i: nat)
    requires Execution(states, actions) && i < |states|
    ensures Inv(states[i])
  {
    if i > 0 {
      InvariantAlways(states, actions, i - 1);
      assert Linked(states, actions, i - 1);
      StepKeepsInv(states[i - 1], actions[i - 1]);
    }
  }

  /** Lifecycle order: queued, then running, then one terminal status for good. */
  function Stage(st: Status): nat { match st case Queued => 0 case Running => 1 case _ => 2 }

  predicate Progressed(was: Status, now: Status) {
    Stage(was) <= Stage(now) && (Terminal(was) ==> now == was)
  }

  lemma StepProgresses(s: State, a: Action, id: nat)
    requires Inv(s) && Enabled(s, a) && id < |s.heap|
    ensures var t := Step(s, a);
      && id < |t.heap| && t.heap[id].session == s.heap[id].session
      && Progressed(s.heap[id].status, t.heap[id].status) && s.history <= t.history
  {
    assert JobInv(s, id);
    match a
    case Finish(k, how) => assert JobInv(s, k); SettleThenEvict(s, k, how);
    case Cancel(k) => if k in s.order && s.heap[k].status.Queued? { SettleThenEvict(s, k, Cancelled); }
    case _ =>
  }

  /** Between any two moments a job only moves forward, and a terminal status never changes again. */
  lemma {:induction false} OutcomesAreFinal(states: seq<State>, actions: seq<Action>, i: nat, j: nat, id: nat)
    requires Execution(states, actions) && i <= j < |states| && id < |states[i].heap|
    ensures id < |states[j].heap| && states[j].heap[id].session == states[i].heap[id].session
    ensures Progressed(states[i].heap[id].status, states[j].heap[id].status)
    ensures states[i].history <= states[j].history
    decreases j - i
  {
    if i < j {
      OutcomesAreFinal(states, actions, i, j - 1, id);
      InvariantAlways(states, actions, j - 1);
      assert Linked(states, actions, j - 1);
      StepProgresses(states[j - 1], actions[j - 1], id);
    }
  }

  lemma {:induction false} CountDistinct(s: seq<nat>, x: nat)
    requires Distinct(s)
    ensures multiset(s)[x] == if x in s then 1 else 0
  {
    if s != [] {
      var init, last := s[..|s| - 1], s[|s| - 1];
      CountDistinct(init, x);
      assert s == init + [last] && multiset(s) == multiset(init) + multiset{last};
      assert x in s <==> x in init || x == last;
      assert forall k | 0 <= k < |init| :: init[k] == s[k] != last;
    }
  }

  /** Every job reaches a terminal state exactly once, however its finish and its cancellations race. */
  lemma TerminalExactlyOnce(states: seq<State>, actions: seq<Action>, i: nat, id: nat)
    requires Execution(states, actions) && i < |states| && id < |states[i].heap|
    ensures multiset(states[i].history)[id] == if Terminal(states[i].heap[id].status) then 1 else 0
  {
    InvariantAlways(states, actions, i);
    assert JobInv(states[i], id);
    CountDistinct(states[i].history, id);
  }

  /** At any moment the registry retains exactly the unfinished jobs and the 32 most recently finished
    * ones; these, and no others, still hold their task; and they are listed in submission order. */
  lemma RetentionExact(states: seq<State>, actions: seq<Action>, i: nat)
    requires Execution(states, actions) && i < |states|
    ensures var s := states[i];
      && Ascending(s.order) && Distinct(s.history)
      && (forall id: nat :: id in s.order <==>
            id < |s.heap| && (Terminal(s.heap[id].status) ==> id in LastN(RETENTION, s.history)))
      && (forall id: nat | id < |s.heap| :: s.heap[id].hasTask <==> id in s.order)
      && (forall id :: id in s.finished <==> id in s.order && id < |s.heap| && Terminal(s.heap[id].status))
  {
    InvariantAlways(states, actions, i);
    var s := states[i];
    forall id: nat
      ensures id in s.order <==>
        id < |s.heap| && (Terminal(s.heap[id].status) ==> id in LastN(RETENTION, s.history))
      ensures id < |s.heap| ==> (s.heap[id].hasTask <==> id in s.order)
      ensures id in s.finished <==> id in s.order && id < |s.heap| && Terminal(s.heap[id].status)
    {
      assert id in s.finished ==> id in s.history;
      if id < |s.heap| { assert JobInv(s, id); }
    }
  }

  // ---------- which status a job has, read off the actions ----------

  /** How many of the first `k` actions submit a job: the next submission gets this id. */
  function Submitted(actions: seq<Action>, k: nat): nat
    requires k <= |actions|
  {
    if k == 0 then 0 else Submitted(actions, k - 1) + if actions[k - 1].Submit? then 1 else 0
  }

  /** Among the first `k` actions the job was started. */
  predicate Began(actions: seq<Action>, k: nat, id: nat)
    requires k <= |actions|
  {
    exists i | 0 <= i < k :: actions[i] == Start(id)
  }

  /** Its runner finished with `how`. */
  predicate Ended(actions: seq<Action>, k: nat, id: nat, how: Status)
    requires k <= |actions|
  {
    exists i | 0 <= i < k :: actions[i] == Finish(id, how)
  }

  predicate EndedAnyhow(actions: seq<Action>, k: nat, id: nat)
    requires k <= |actions|
  {
    exists i | 0 <= i < k :: actions[i].Finish? && actions[i].id == id
  }

  /** Action `i` cancels the job between its submission and its start. */
  predicate WithdrawnAt(actions: seq<Action>, i: nat, id: nat)
    requires i < |actions|
  {
    actions[i] == Cancel(id) && id < Submitted(actions, i) && !Began(actions, i, id)
  }

  predicate Withdrawn(actions: seq<Action>, k: nat, id: nat)
    requires k <= |actions|
  {
    exists i: nat :: i < k && WithdrawnAt(actions, i, id)
  }

  /** The status of a job as the actions tell it. */
  predicate Told(actions: seq<Action>, k: nat, id: nat, st: Status)
    requires k <= |actions|
  {
    match st
    case Queued => !Began(actions, k, id) && !Withdrawn(actions, k, id)
    case Running => Began(actions, k, id) && !EndedAnyhow(actions, k, id)
    case Completed => Ended(actions, k, id, Completed)
    case Failed => Ended(actions, k, id, Failed)
    case Cancelled => Ended(actions, k, id, Cancelled) || Withdrawn(actions, k, id)
  }

  /** What one more action adds to the tale of one job. */
  lemma TaleGrows(actions: seq<Action>, k: nat, id: nat)
    requires k < |actions|
    ensures Began(actions, k + 1, id) <==> Began(actions, k, id) || actions[k] == Start(id)
    ensures EndedAnyhow(actions, k + 1, id) <==>
      EndedAnyhow(actions, k, id) || (actions[k].Finish? && actions[k].id == id)
    ensures forall how ::
      Ended(actions, k + 1, id, how) <==> Ended(actions, k, id, how) || actions[k] == Finish(id, how)
    ensures Withdrawn(actions, k + 1, id) <==> Withdrawn(actions, k, id) || WithdrawnAt(actions, k, id)
  {}

  /** What one action does to the status of one job. */
  lemma StatusStep(s: State, a: Action, id: nat)
    requires Inv(s) && Enabled(s, a) && id < |s.heap|
    ensures var was, t := s.heap[id].status, Step(s, a);
      && id < |t.heap|
      && t.heap[id].status ==
        if a == Start(id) then Running
        else if a.Finish? && a.id == id then a.how
        else if a == Cancel(id) && was.Queued? then Cancelled
        else was
  {
    assert JobInv(s, id);
    match a
    case Finish(k, how) => assert JobInv(s, k); SettleThenEvict(s, k, how);
    case Cancel(k) => if k in s.order && s.heap[k].status.Queued? { SettleThenEvict(s, k, Cancelled); }
    case _ =>
  }

  predicate OnlyEnded(actions: seq<Action>, k: nat, id: nat, how: Status)
    requires k <= |actions|
  {
    && Ended(actions, k, id, how)
    && forall i | 0 <= i < k && actions[i].Finish? && actions[i].id == id :: actions[i].how == how
  }

  /** The whole tale of a job that has status `st` now. */
  predicate Tale(actions: seq<Action>, k: nat, id: nat, st: Status)
    requires k <= |actions|
  {
    match st
    case Queued => !Began(actions, k, id) && !EndedAnyhow(actions, k, id) && !Withdrawn(actions, k, id)
    case Running => Began(actions, k, id) && !EndedAnyhow(actions, k, id) && !Withdrawn(actions, k, id)
    case _ =>
      || (Began(actions, k, id) && OnlyEnded(actions, k, id, st) && !Withdrawn(actions, k, id))
      || (st.Cancelled? && !Began(actions, k, id) && !EndedAnyhow(actions, k, id) && Withdrawn(actions, k, id))
  }

  lemma TaleStep(s: State, actions: seq<Action>, k: nat, id: nat)
    requires k < |actions| && Inv(s) && Enabled(s, actions[k]) && id < |s.heap| == Submitted(actions, k)
    requires Tale(actions, k, id, s.heap[id].status)
    ensures var t := Step(s, actions[k]); id < |t.heap| && Tale(actions, k + 1, id, t.heap[id].status)
  {
    assert JobInv(s, id);
    StatusStep(s, actions[k], id);
    TaleGrows(actions, k, id);
  }

  /** Nothing has happened yet to a job not yet submitted. */
  predicate Untold(actions: seq<Action>, k: nat, id: nat)
    requires k <= |actions|
  {
    !Began(actions, k, id) && !EndedAnyhow(actions, k, id) && !Withdrawn(actions, k, id)
  }

  lemma UntoldStep(s: State, actions: seq<Action>, k: nat, id: nat)
    requires k < |actions| && Enabled(s, actions[k]) && |s.heap| == Submitted(actions, k) <= id
    requires Untold(actions, k, id)
    ensures Untold(actions, k + 1, id)
  {
    TaleGrows(actions, k, id);
  }

  /** A submission adds one queued job at the end; nothing else changes how many there are. */
  lemma HeapGrows(s: State, a: Action)
    requires Inv(s) && Enabled(s, a)
    ensures |Step(s, a).heap| == |s.heap| + if a.Submit? then 1 else 0
    ensures a.Submit? ==> Step(s, a).heap[|s.heap|].status == Queued && Step(s, a).heap[|s.heap|].session == a.session
  {
    match a
    case Finish(k, how) => assert JobInv(s, k); SettleThenEvict(s, k, how);
    case Cancel(k) => if k in s.order && s.heap[k].status.Queued? { SettleThenEvict(s, k, Cancelled); }
    case _ =>
  }

  lemma {:induction false} SubmissionsCounted(states: seq<State>, actions: seq<Action>, k: nat)
    requires Execution(states, actions) && k < |states|
    ensures |states[k].heap| == Submitted(actions, k)
  {
    if k > 0 {
      SubmissionsCounted(states, actions, k - 1);
      InvariantAlways(states, actions, k - 1);
      assert Linked(states, actions, k - 1);
      HeapGrows(states[k - 1], actions[k - 1]);
    }
  }

  lemma {:induction false} TaleAlways(states: seq<State>, actions: seq<Action>, k: nat, id: nat)
    requires Execution(states, actions) && k < |states|
    ensures |states[k].heap| == Submitted(actions, k)
    ensures id < |states[k].heap| ==> Tale(actions, k, id, states[k].heap[id].status)
    ensures id >= |states[k].heap| ==> Untold(actions, k, id)
  {
    SubmissionsCounted(states, actions, k);
    if k > 0 {
      var j := k - 1;
      TaleAlways(states, actions, j, id);
      InvariantAlways(states, actions, j);
      assert Linked(states, actions, j);
      if id < |states[j].heap| {
        TaleStep(states[j], actions, j, id);
      } else {
        UntoldStep(states[j], actions, j, id);
        HeapGrows(states[j], actions[j]);
      }
    }
  }

  lemma TaleTells(actions: seq<Action>, k: nat, id: nat, now: Status, st: Status)
    requires k <= |actions| && Tale(actions, k, id, now)
    ensures now == st <==> Told(actions, k, id, st)
  {
    if Ended(actions, k, id, st) { assert EndedAnyhow(actions, k, id); }
    if Terminal(now) && Ended(actions, k, id, now) { assert EndedAnyhow(actions, k, id); }
  }

  /** At every moment of every run a job's status is what the actions tell: completed, failed or cancelled
    * exactly if its runner finished so, cancelled also exactly if it was cancelled before its start,
    * running exactly if started and not finished, queued otherwise. */
  lemma StatusExact(states: seq<State>, actions: seq<Action>, k: nat, id: nat, st: Status)
    requires Execution(states, actions) && k < |states| && id < Submitted(actions, k)
    ensures |states[k].heap| == Submitted(actions, k)
    ensures states[k].heap[id].status == st <==> Told(actions, k, id, st)
  {
    TaleAlways(states, actions, k, id);
    TaleTells(actions, k, id, states[k].heap[id].status, st);
  }

  /** A job keeps the session it was submitted for. */
  lemma SessionKept(states: seq<State>, actions: seq<Action>, i: nat, k: nat)
    requires Execution(states, actions) && i < k < |states| && actions[i].Submit?
    ensures Submitted(actions, i) < |states[k].heap|
    ensures states[k].heap[Submitted(actions, i)].session == actions[i].session
  {
    SubmissionsCounted(states, actions, i);
    InvariantAlways(states, actions, i);
    assert Linked(states, actions, i);
    HeapGrows(states[i], actions[i]);
    OutcomesAreFinal(states, actions, i + 1, k, Submitted(actions, i));
  }

  /** What asking to cancel a job reports: a request exactly if the job is unfinished, that it is over while it
    * is among the 32 jobs finished last, and that it is unknown otherwise. */
  lemma CancelReportsExactly(states: seq<State>, actions: seq<Action>, k: nat, id: nat)
    requires Execution(states, actions) && k < |states|
    ensures forall j | j in states[k].order :: j < |states[k].heap|
    ensures var s, r := states[k], CancelOutcome(states[k], id);
      && (r == Requested <==> id < |s.heap| && !Terminal(s.heap[id].status))
      && (r == AlreadyFinished <==>
            id < |s.heap| && Terminal(s.heap[id].status) && id in LastN(32, s.history))
  {
    InvariantAlways(states, actions, k);
    RetentionExact(states, actions, k);
  }

  /** A session is busy exactly when one of its jobs is queued or running. */
  predicate Busy(s: State, session: string) {
    exists id: nat | id < |s.heap| :: s.heap[id].session == session && !Terminal(s.heap[id].status)
  }

  // ---------- the object ----------

  class BatchJobRegistry {
    var heap: seq<Job>
    var order: seq<nat>
    var finished: seq<nat>
    ghost var history: seq<nat>

    ghost function View(): State
      reads this
    {
      State(heap, order, finished, history)
    }

    constructor ()
      ensures View() == Init
    {
      heap, order, finished, history := [], [], [], [];
    }

    method SubmitJob(session: string) returns (id: nat)
      modifies this
      ensures View() == Step(old(View()), Submit(session)) && id == old(|heap|)
    {
      id := |heap|;
      heap := heap + [Job(session, Queued, true, Waiting)];
      order := order + [id];
    }

    /** The part of `_run` before the runner is awaited. */
    method BeginRun(id: nat)
      requires Enabled(View(), Start(id))
      modifies this
      ensures View() == Step(old(View()), Start(id))
    {
      heap := heap[id := heap[id].(status := Running, slot := Executing)];
    }

    /** The rest of `_run`: the status that the runner's end leads to, then the `finally` block. */
    method EndRun(id: nat, how: Status)
      requires Enabled(View(), Finish(id, how))
      modifies this
      ensures View() == Step(old(View()), Finish(id, how))
    {
      heap := heap[id := heap[id].(status := how, slot := Over)];
      finished := finished + [id];
      history := history + [id];
      EvictFinished();
    }

    method EvictFinished()
      modifies this
      ensures View() == Evict(old(View()))
    {
      while |finished| > RETENTION
        invariant Evict(View()) == Evict(old(View()))
        decreases |finished|
      {
        var oldest := finished[0];
        finished := finished[1..];
        if oldest in order {
          RemoveJob(oldest);
          heap := DropTask(heap, oldest);
        }
      }
    }

    /** `dict.pop(id)`: the remaining keys keep their order. */
    method RemoveJob(id: nat)
      modifies this`order
      ensures order == Without(old(order), id)
    {
      var kept, i := [], 0;
      while i < |order|
        invariant 0 <= i <= |order| && order == old(order)
        invariant kept + Without(order[i..], id) == Without(order, id)
      {
        assert order[i..][1..] == order[i + 1..];
        if order[i] != id { kept := kept + [order[i]]; }
        i := i + 1;
      }
      order := kept;
    }

    method CancelJob(id: nat) returns (result: CancelResult)
      requires forall k | k in order :: k < |heap|
      modifies this
      ensures View() == Step(old(View()), Cancel(id))
      ensures result == CancelOutcome(old(View()), id)
    {
      if id !in order { return UnknownJob; }
      if Terminal(heap[id].status) { return AlreadyFinished; }
      result := Requested;
      if heap[id].status.Queued? {
        heap := heap[id := heap[id].(status := Cancelled, slot := Over)];
        finished := finished + [id];
        history := history + [id];
        EvictFinished();
      }
    }

    /** Finds a job exactly when the session has an unfinished one, retained or not; the one found is
      * the earliest submitted. */
    method RunningJobForSession(session: string) returns (job: Option<nat>)
      requires Inv(View())
      ensures job.Some? <==> Busy(View(), session)
      ensures job.Some? ==>
        && job.value < |heap| && heap[job.value].session == session && !Terminal(heap[job.value].status)
        && forall k: nat | k < job.value :: heap[k].session == session ==> Terminal(heap[k].status)
    {
      var i := 0;
      while i < |order|
        invariant 0 <= i <= |order|
        invariant forall n | 0 <= n < |order| :: order[n] in order
        invariant forall n | 0 <= n < i :: heap[order[n]].session == session ==> Terminal(heap[order[n]].status)
      {
        var id := order[i];
        assert id in order;
        if heap[id].session == session && (heap[id].status.Queued? || heap[id].status.Running?) {
          forall k: nat | k < id ensures heap[k].session == session ==> Terminal(heap[k].status) {
            assert JobInv(View(), k);
          }
          return Some(id);
        }
        i := i + 1;
      }
      forall k: nat | k < |heap| ensures heap[k].session == session ==> Terminal(heap[k].status) {
        assert JobInv(View(), k);
      }
      job := None;
    }
  }
}
