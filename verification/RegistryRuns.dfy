/** Concurrent syncs: each awaits its contract checks, and anything may run in between. */
module RegistryRuns {
  import opened Registry

  /** One sync in progress: the names it wants, the snapshot it took, the position in its loop, whether it
    * awaits a contract check, and its report. */
  datatype Proc = Proc(names: seq<string>, current: set<string>, at: nat, waiting: bool,
                       added: set<string>, failed: set<string>, done: bool, restart: bool)

  datatype World = World(reg: State, procs: seq<Proc>)

  datatype Action =
    | Begin(names: seq<string>)
    | Look(i: nat)                // the next name, up to the contract check if it needs one
    | Return(i: nat, o: Outcome)  // the check comes back; the critical section follows without a break
    | Finish(i: nat)              // removals and report, one stretch without an await
    | ClearAll

  function SetOf(names: seq<string>): set<string> { set n | n in names }

  predicate Enabled(w: World, a: Action) {
    match a
    case Look(i) => i < |w.procs| && !w.procs[i].waiting && w.procs[i].at < |w.procs[i].names|
    case Return(i, _) => i < |w.procs| && w.procs[i].waiting && w.procs[i].at < |w.procs[i].names|
    case Finish(i) =>
      i < |w.procs| && !w.procs[i].waiting && !w.procs[i].done && w.procs[i].at >= |w.procs[i].names|
    case _ => true
  }

  function Passed(p: Proc, ok: bool, onRecord: bool): Proc
    requires p.at < |p.names|
  {
    var n := p.names[p.at];
    p.(at := p.at + 1, waiting := false,
       added := if ok && onRecord then p.added + {n} else p.added,
       failed := if ok then p.failed else p.failed + {n})
  }

  function Step(w: World, a: Action): World
    requires Enabled(w, a)
  {
    match a
    case Begin(names) => w.(procs := w.procs + [Proc(names, w.reg.book.Keys, 0, false, {}, {}, false, false)])
    case Look(i) =>
      var p := w.procs[i];
      var n := p.names[p.at];
      var p' := if n in p.current then p.(at := p.at + 1)
                else if n in w.reg.book then Passed(p, true, true)
                else p.(waiting := true);
      w.(procs := w.procs[i := p'])
    case Return(i, o) =>
      var p := w.procs[i];
      var n := p.names[p.at];
      var (reg, ok) := Land(w.reg, n, o);
      World(reg, w.procs[i := Passed(p, ok, n in reg.book)])
    case Finish(i) =>
      var p := w.procs[i];
      var removed := p.current - SetOf(p.names);
      var reg := Retired(w.reg, removed);
      World(reg, w.procs[i := p.(done := true, restart := RestartRequired(reg, removed))])
    case ClearAll => w.(reg := Clear(w.reg))
  }

  /** Any interleaving of any number of syncs, from a registry `start` with none running. */
  ghost predicate Execution(start: State, worlds: seq<World>, actions: seq<Action>) {
    && |worlds| == |actions| + 1 && worlds[0] == World(start, [])
    && forall k | 0 <= k < |actions| :: Linked(worlds, actions, k)
  }

  ghost predicate Linked(worlds: seq<World>, actions: seq<Action>, k: nat)
    requires k < |actions| < |worlds|
  {
    Enabled(worlds[k], actions[k]) && worlds[k + 1] == Step(worlds[k], actions[k])
  }

  // ---------- the same manifest: every interleaving ends where one undisturbed sync does ----------

  /** What one action may be when all syncs want `wanted` and each name's check has one outcome. */
  predicate Fits(w: World, a: Action, wanted: set<string>, env: string -> Outcome) {
    match a
    case Begin(names) => SetOf(names) == wanted
    case Return(i, o) =>
      i < |w.procs| && w.procs[i].at < |w.procs[i].names| ==> o == env(w.procs[i].names[w.procs[i].at])
    case ClearAll => false
    case _ => true
  }

  predicate RegInv(reg: State, from: set<string>, wanted: set<string>, env: string -> Outcome) {
    BookOk(reg) && from * wanted <= reg.book.Keys <= from + Good(wanted, env)
  }

  predicate ProcInv(book: set<string>, p: Proc, from: set<string>, wanted: set<string>, env: string -> Outcome) {
    var seen := SetOf(p.names[..if p.at <= |p.names| then p.at else 0]);
    && SetOf(p.names) == wanted && p.at <= |p.names|
    && (p.waiting ==> p.at < |p.names| && p.names[p.at] !in p.current)
    && (p.done ==> p.at == |p.names| && !p.waiting && book <= wanted)
    && from * wanted <= p.current <= from + Good(wanted, env)
    // the snapshot still covers what is there to remove, and what it saw wanted is still there
    && book - wanted <= p.current && p.current * wanted <= book
    && seen * Good(wanted, env) <= book
    && p.added == seen * Good(wanted, env) - p.current
    && p.failed == seen - p.current - Good(wanted, env)
  }

  predicate Inv(w: World, from: set<string>, wanted: set<string>, env: string -> Outcome) {
    RegInv(w.reg, from, wanted, env) && forall p | p in w.procs :: ProcInv(w.reg.book.Keys, p, from, wanted, env)
  }

  lemma SeenGrows(p: Proc)
    requires p.at < |p.names|
    ensures SetOf(p.names[..p.at + 1]) == SetOf(p.names[..p.at]) + {p.names[p.at]}
    ensures p.names[p.at] in SetOf(p.names)
  {
    assert p.names[..p.at + 1] == p.names[..p.at] + [p.names[p.at]];
  }

  /** No step removes a wanted name or brings in an unwanted one, so the other syncs keep their invariant. */
  lemma OthersKeep(book: set<string>, book': set<string>, p: Proc,
                   from: set<string>, wanted: set<string>, env: string -> Outcome)
    requires ProcInv(book, p, from, wanted, env)
    requires book * wanted <= book' && book' - wanted <= book
    ensures ProcInv(book', p, from, wanted, env)
  {}

  lemma BeginKeeps(reg: State, names: seq<string>, from: set<string>, wanted: set<string>, env: string -> Outcome)
    requires RegInv(reg, from, wanted, env) && SetOf(names) == wanted
    ensures ProcInv(reg.book.Keys, Proc(names, reg.book.Keys, 0, false, {}, {}, false, false), from, wanted, env)
  {
    assert names[..0] == [];
  }

  /** One sync steps, the record changes as allowed, the others look on. */
  lemma Replace(w: World, i: nat, reg: State, p: Proc, from: set<string>, wanted: set<string>, env: string -> Outcome)
    requires Inv(w, from, wanted, env) && i < |w.procs|
    requires RegInv(reg, from, wanted, env) && ProcInv(reg.book.Keys, p, from, wanted, env)
    requires w.reg.book.Keys * wanted <= reg.book.Keys && reg.book.Keys - wanted <= w.reg.book.Keys
    ensures Inv(World(reg, w.procs[i := p]), from, wanted, env)
  {
    forall q | q in w.procs[i := p] ensures ProcInv(reg.book.Keys, q, from, wanted, env) {
      if q != p {
        assert q in w.procs;
        OthersKeep(w.reg.book.Keys, reg.book.Keys, q, from, wanted, env);
      }
    }
  }

  /** The name under consideration has been dealt with: on record if and only if it is good. */
  lemma PassedKeeps(book: set<string>, p: Proc, ok: bool, from: set<string>, wanted: set<string>,
                    env: string -> Outcome)
    requires ProcInv(book, p, from, wanted, env) && p.at < |p.names| && p.names[p.at] !in p.current
    requires ok <==> p.names[p.at] in Good(wanted, env)
    requires ok ==> p.names[p.at] in book
    ensures ProcInv(book, Passed(p, ok, p.names[p.at] in book), from, wanted, env)
  {
    SeenGrows(p);
  }

  lemma LandedIsGood(reg: State, n: string, from: set<string>, wanted: set<string>, env: string -> Outcome)
    requires RegInv(reg, from, wanted, env) && n in wanted && n !in from
    ensures var (reg', ok) := Land(reg, n, env(n));
      && RegInv(reg', from, wanted, env) && (ok <==> n in Good(wanted, env)) && (ok ==> n in reg'.book)
      && reg.book.Keys * wanted <= reg'.book.Keys && reg'.book.Keys - wanted <= reg.book.Keys
  {
    var reg' := Land(reg, n, env(n)).0;
    assert reg'.book.Keys == reg.book.Keys || reg'.book.Keys == reg.book.Keys + {n};
  }

  lemma LookKeeps(w: World, i: nat, from: set<string>, wanted: set<string>, env: string -> Outcome)
    requires Inv(w, from, wanted, env) && Enabled(w, Look(i))
    ensures Inv(Step(w, Look(i)), from, wanted, env)
  {
    var p := w.procs[i];
    assert p in w.procs;
    var n := p.names[p.at];
    SeenGrows(p);
    if n !in p.current && n in w.reg.book { PassedKeeps(w.reg.book.Keys, p, true, from, wanted, env); }
    Replace(w, i, w.reg, Step(w, Look(i)).procs[i], from, wanted, env);
  }

  lemma ReturnKeeps(w: World, i: nat, o: Outcome, from: set<string>, wanted: set<string>, env: string -> Outcome)
    requires Inv(w, from, wanted, env) && Enabled(w, Return(i, o)) && o == env(w.procs[i].names[w.procs[i].at])
    ensures Inv(Step(w, Return(i, o)), from, wanted, env)
  {
    var p := w.procs[i];
    assert p in w.procs;
    SeenGrows(p);
    LandedIsGood(w.reg, p.names[p.at], from, wanted, env);
    var (reg, ok) := Land(w.reg, p.names[p.at], o);
    OthersKeep(w.reg.book.Keys, reg.book.Keys, p, from, wanted, env);
    PassedKeeps(reg.book.Keys, p, ok, from, wanted, env);
    Replace(w, i, reg, Step(w, Return(i, o)).procs[i], from, wanted, env);
  }

  lemma FinishKeeps(w: World, i: nat, from: set<string>, wanted: set<string>, env: string -> Outcome)
    requires Inv(w, from, wanted, env) && Enabled(w, Finish(i))
    ensures Inv(Step(w, Finish(i)), from, wanted, env)
  {
    var p := w.procs[i];
    assert p in w.procs;
    var reg := Step(w, Finish(i)).reg;
    assert reg.book.Keys == w.reg.book.Keys - (p.current - wanted);
    OthersKeep(w.reg.book.Keys, reg.book.Keys, p, from, wanted, env);
    Replace(w, i, reg, Step(w, Finish(i)).procs[i], from, wanted, env);
  }

  lemma StepKeepsInv(w: World, a: Action, from: set<string>, wanted: set<string>, env: string -> Outcome)
    requires Inv(w, from, wanted, env) && Enabled(w, a) && Fits(w, a, wanted, env)
    ensures Inv(Step(w, a), from, wanted, env)
  {
    match a
    case Begin(names) => BeginKeeps(w.reg, names, from, wanted, env);
    case Look(i) => LookKeeps(w, i, from, wanted, env);
    case Return(i, o) => ReturnKeeps(w, i, o, from, wanted, env);
    case Finish(i) => FinishKeeps(w, i, from, wanted, env);
  }

  ghost predicate AllFit(worlds: seq<World>, actions: seq<Action>, wanted: set<string>, env: string -> Outcome)
    requires |worlds| > |actions|
  {
    forall k | 0 <= k < |actions| :: Fits(worlds[k], actions[k], wanted, env)
  }

  lemma {:induction false} InvariantAlways(start: State, worlds: seq<World>, actions: seq<Action>,
                                           wanted: set<string>, env: string -> Outcome, k: nat)
    requires Execution(start, worlds, actions) && BookOk(start)
    requires AllFit(worlds, actions, wanted, env) && k < |worlds|
    ensures Inv(worlds[k], start.book.Keys, wanted, env)
  {
    if k > 0 {
      InvariantAlways(start, worlds, actions, wanted, env, k - 1);
      assert Linked(worlds, actions, k - 1);
      StepKeepsInv(worlds[k - 1], actions[k - 1], start.book.Keys, wanted, env);
    }
  }

  // ---------- and the SDK side of it ----------

  /** The tool of `n` is in the SDK: as at the start unless `n` has left the record since, or added since. */
  ghost predicate ToolRight(reg: State, start: State, env: string -> Outcome, n: string) {
    Tool(n) in reg.sdk <==>
      || (Tool(n) in start.sdk && (n in start.book ==> n in reg.book))
      || (n in reg.book && n !in start.book && env(n).Adds?)
  }

  predicate IsTool(t: string) { PREFIX <= t }

  ghost predicate SdkInv(reg: State, start: State, env: string -> Outcome) {
    && (forall n :: ToolRight(reg, start, env, n))
    && forall t | !IsTool(t) :: t in reg.sdk <==> t in start.sdk
  }

  lemma RetiredTool(reg: State, names: set<string>, n: string)
    ensures Tool(n) in Retired(reg, names).sdk <==> Tool(n) in reg.sdk && !(n in names && n in reg.book)
  {
    ToolsOfMember(names * reg.book.Keys, n);
  }

  lemma LandedSdk(reg: State, n: string, start: State, env: string -> Outcome)
    requires SdkInv(reg, start, env) && n !in start.book
    ensures SdkInv(Land(reg, n, env(n)).0, start, env)
  {
    var reg' := Land(reg, n, env(n)).0;
    forall m ensures ToolRight(reg', start, env, m) {
      assert ToolRight(reg, start, env, m);
      if Tool(m) == Tool(n) { ToolInjective(m, n); }
    }
  }

  lemma RetiredSdk(reg: State, names: set<string>, start: State, env: string -> Outcome)
    requires SdkInv(reg, start, env) && names * reg.book.Keys <= start.book.Keys
    ensures SdkInv(Retired(reg, names), start, env)
  {
    forall m ensures ToolRight(Retired(reg, names), start, env, m) {
      assert ToolRight(reg, start, env, m);
      RetiredTool(reg, names, m);
    }
  }

  lemma StepKeepsSdk(w: World, a: Action, start: State, wanted: set<string>, env: string -> Outcome)
    requires Inv(w, start.book.Keys, wanted, env) && SdkInv(w.reg, start, env)
    requires Enabled(w, a) && Fits(w, a, wanted, env)
    ensures SdkInv(Step(w, a).reg, start, env)
  {
    match a
    case Return(i, o) =>
      assert w.procs[i] in w.procs;
      SeenGrows(w.procs[i]);
      LandedSdk(w.reg, w.procs[i].names[w.procs[i].at], start, env);
    case Finish(i) =>
      assert w.procs[i] in w.procs;
      RetiredSdk(w.reg, w.procs[i].current - wanted, start, env);
    case _ =>
  }

  lemma {:induction false} SdkAlways(start: State, worlds: seq<World>, actions: seq<Action>,
                                     wanted: set<string>, env: string -> Outcome, k: nat)
    requires Execution(start, worlds, actions) && BookOk(start)
    requires AllFit(worlds, actions, wanted, env) && k < |worlds|
    ensures SdkInv(worlds[k].reg, start, env)
  {
    if k > 0 {
      SdkAlways(start, worlds, actions, wanted, env, k - 1);
      InvariantAlways(start, worlds, actions, wanted, env, k - 1);
      assert Linked(worlds, actions, k - 1);
      StepKeepsSdk(worlds[k - 1], actions[k - 1], start, wanted, env);
    }
  }

  lemma SdkConverged(reg: State, start: State, wanted: set<string>, env: string -> Outcome)
    requires SdkInv(reg, start, env) && reg.book.Keys == SyncedNames(start.book.Keys, wanted, env)
    ensures reg.sdk == Synced(start, wanted, env).sdk
  {
    var t := Synced(start, wanted, env);
    forall x ensures x in reg.sdk <==> x in t.sdk {
      if IsTool(x) {
        var n := x[|PREFIX|..];
        assert x == Tool(n) && ToolRight(reg, start, env, n);
        ToolPresent(start, wanted, env, n);
      } else {
        assert forall n :: IsTool(Tool(n));
      }
    }
  }

  /** However many syncs of one manifest interleave: once any of them has finished, the record and the SDK
    * are, and stay, what a single undisturbed sync would have left; each reports as failed exactly the
    * names whose registration cannot go through, and as added exactly those that came in after its snapshot. */
  lemma SyncsConverge(start: State, worlds: seq<World>, actions: seq<Action>,
                      wanted: set<string>, env: string -> Outcome, k: nat, i: nat)
    requires Execution(start, worlds, actions) && BookOk(start) && AllFit(worlds, actions, wanted, env)
    requires k < |worlds| && i < |worlds[k].procs| && worlds[k].procs[i].done
    ensures worlds[k].reg == Synced(start, wanted, env)
    ensures worlds[k].procs[i].failed == wanted - start.book.Keys - Good(wanted, env)
    ensures worlds[k].procs[i].added == Good(wanted, env) - worlds[k].procs[i].current
  {
    InvariantAlways(start, worlds, actions, wanted, env, k);
    SdkAlways(start, worlds, actions, wanted, env, k);
    var w, p := worlds[k], worlds[k].procs[i];
    assert p in w.procs && p.names[..p.at] == p.names;
    assert w.reg.book.Keys == SyncedNames(start.book.Keys, wanted, env);
    assert w.reg.book == Synced(start, wanted, env).book;
    SdkConverged(w.reg, start, wanted, env);
  }

  /** When its contract check comes back a sync reports the name as failed exactly if the check failed, or
    * `add_tool` raised and nobody has recorded the name meanwhile, and as added otherwise. */
  lemma ReturnReported(w: World, i: nat, o: Outcome)
    requires Enabled(w, Return(i, o))
    ensures var p, n, t := w.procs[i], w.procs[i].names[w.procs[i].at], Step(w, Return(i, o));
      var fails := o.Invalid? || (o.AddRaises? && n !in w.reg.book);
      && i < |t.procs| && t.procs[i].failed == (if fails then p.failed + {n} else p.failed)
      && t.procs[i].added == (if fails then p.added else p.added + {n})
      && (n in t.reg.book <==> n in w.reg.book || !fails)
  {}

  // ---------- any manifests, any outcomes, provided add_tool really adds ----------

  predicate Honest(a: Action) { a.Return? ==> !a.o.Silent? }

  /** Every tool on record is in the SDK. */
  ghost predicate Present(reg: State) { BookOk(reg) && forall n | n in reg.book :: Tool(n) in reg.sdk }

  /** The script tools in the SDK are exactly those on record. */
  ghost predicate Matched(reg: State) { BookOk(reg) && forall n :: Tool(n) in reg.sdk <==> n in reg.book }

  lemma StepKeepsPresent(w: World, a: Action)
    requires Present(w.reg) && Enabled(w, a) && Honest(a)
    ensures Present(Step(w, a).reg)
  {
    if a.Finish? {
      var removed := w.procs[a.i].current - SetOf(w.procs[a.i].names);
      forall n | n in Step(w, a).reg.book ensures Tool(n) in Step(w, a).reg.sdk { RetiredTool(w.reg, removed, n); }
    }
  }

  /** Whatever syncs and clears interleave, every tool on record is present in the SDK. */
  lemma {:induction false} RecordedToolsPresent(start: State, worlds: seq<World>, actions: seq<Action>, k: nat)
    requires Execution(start, worlds, actions) && Present(start) && k < |worlds|
    requires forall j | 0 <= j < |actions| :: Honest(actions[j])
    ensures Present(worlds[k].reg)
  {
    if k > 0 {
      RecordedToolsPresent(start, worlds, actions, k - 1);
      assert Linked(worlds, actions, k - 1);
      StepKeepsPresent(worlds[k - 1], actions[k - 1]);
    }
  }

  // ---------- tools left behind by clears ----------

  /** Before `k` a clear at `c` took name `n` off the record, and it has not been recorded since. */
  predicate Forgotten(worlds: seq<World>, actions: seq<Action>, k: nat, n: string, c: nat)
    requires k < |worlds| && |actions| <= |worlds|
  {
    && c < k && c < |actions| && actions[c].ClearAll? && n in worlds[c].reg.book
    && forall d | c < d <= k :: n !in worlds[d].reg.book
  }

  /** What one honest step does to the tool of a name that is not on record afterwards. */
  lemma StepTool(w: World, a: Action, n: string)
    requires Present(w.reg) && Enabled(w, a) && Honest(a) && n !in Step(w, a).reg.book
    ensures Tool(n) in Step(w, a).reg.sdk <==> Tool(n) in w.reg.sdk && (n in w.reg.book ==> a.ClearAll?)
  {
    match a
    case Finish(i) => RetiredTool(w.reg, w.procs[i].current - SetOf(w.procs[i].names), n);
    case Return(i, o) =>
      var name := w.procs[i].names[w.procs[i].at];
      if Tool(n) == Tool(name) { ToolInjective(n, name); }
    case _ =>
  }

  /** From a start where record and SDK agree: a script tool is in the SDK without being on record exactly
    * when a clear took it off the record and it has not been recorded since. */
  lemma {:induction false} LeftBehindExactly(start: State, worlds: seq<World>, actions: seq<Action>, k: nat, n: string)
    requires Execution(start, worlds, actions) && Matched(start) && k < |worlds|
    requires forall j | 0 <= j < |actions| :: Honest(actions[j])
    ensures Tool(n) in worlds[k].reg.sdk && n !in worlds[k].reg.book <==>
      exists c: nat :: Forgotten(worlds, actions, k, n, c)
  {
    if k > 0 && n !in worlds[k].reg.book {
      var j := k - 1;
      LeftBehindExactly(start, worlds, actions, j, n);
      RecordedToolsPresent(start, worlds, actions, j);
      assert Linked(worlds, actions, j);
      StepTool(worlds[j], actions[j], n);
      if exists c: nat :: Forgotten(worlds, actions, j, n, c) {
        var c: nat :| Forgotten(worlds, actions, j, n, c);
        assert Forgotten(worlds, actions, k, n, c);
      }
      if exists c: nat :: Forgotten(worlds, actions, k, n, c) {
        var c: nat :| Forgotten(worlds, actions, k, n, c);
        assert c < j ==> Forgotten(worlds, actions, j, n, c);
      }
      if n in worlds[j].reg.book && actions[j].ClearAll? { assert Forgotten(worlds, actions, k, n, j); }
    }
  }

  /** A sync keeps its manifest and its snapshot. */
  lemma {:induction false} SyncKeepsItsStart(start: State, worlds: seq<World>, actions: seq<Action>, b: nat, k: nat)
    requires Execution(start, worlds, actions) && b < k < |worlds| && actions[b].Begin?
    ensures var i := |worlds[b].procs|;
      && i < |worlds[k].procs| && worlds[k].procs[i].names == actions[b].names
      && worlds[k].procs[i].current == worlds[b].reg.book.Keys
  {
    assert Linked(worlds, actions, k - 1);
    if b < k - 1 { SyncKeepsItsStart(start, worlds, actions, b, k - 1); }
  }

  lemma FinishAsks(w: World, i: nat)
    requires Present(w.reg) && Enabled(w, Finish(i))
    ensures Step(w, Finish(i)).procs[i].restart <==>
      exists n | n in w.procs[i].current && n !in w.procs[i].names :: n !in w.reg.book && Tool(n) in w.reg.sdk
  {
    var removed := w.procs[i].current - SetOf(w.procs[i].names);
    StepKeepsPresent(w, Finish(i));
    forall n
      ensures Tool(n) in Retired(w.reg, removed).sdk <==> Tool(n) in w.reg.sdk && !(n in removed && n in w.reg.book)
    {
      RetiredTool(w.reg, removed, n);
    }
  }

  /** What makes a sync that began at `b` ask for a restart at `k`: a clear in between took a name off the
    * record that the sync's snapshot holds and its manifest drops, and nobody has recorded it since. */
  predicate ClearedAway(worlds: seq<World>, actions: seq<Action>, b: nat, k: nat, n: string, c: nat)
    requires b < |actions| <= |worlds| && k < |worlds| && actions[b].Begin?
  {
    b < c && n in worlds[b].reg.book && n !in actions[b].names && Forgotten(worlds, actions, k, n, c)
  }

  /** Whatever syncs and clears interleave, with additions that really add: a sync asks for a restart if and
    * only if a clear during it left one of its stale tools behind. */
  lemma RestartAskedExactly(start: State, worlds: seq<World>, actions: seq<Action>, b: nat, k: nat)
    requires Execution(start, worlds, actions) && Matched(start)
    requires forall j | 0 <= j < |actions| :: Honest(actions[j])
    requires b < k < |actions| && actions[b].Begin? && actions[k] == Finish(|worlds[b].procs|)
    ensures |worlds[b].procs| < |worlds[k + 1].procs|
    ensures worlds[k + 1].procs[|worlds[b].procs|].restart <==>
      exists n, c: nat :: ClearedAway(worlds, actions, b, k, n, c)
  {
    var i, w := |worlds[b].procs|, worlds[k];
    SyncKeepsItsStart(start, worlds, actions, b, k);
    RecordedToolsPresent(start, worlds, actions, k);
    assert Linked(worlds, actions, k);
    FinishAsks(w, i);
    if worlds[k + 1].procs[i].restart {
      var n :| n in w.procs[i].current && n !in w.procs[i].names && n !in w.reg.book && Tool(n) in w.reg.sdk;
      LeftBehindExactly(start, worlds, actions, k, n);
      var c: nat :| Forgotten(worlds, actions, k, n, c);
      assert b <= c;
      assert ClearedAway(worlds, actions, b, k, n, c);
    }
    if exists n, c: nat :: ClearedAway(worlds, actions, b, k, n, c) {
      var n, c: nat :| ClearedAway(worlds, actions, b, k, n, c);
      LeftBehindExactly(start, worlds, actions, k, n);
    }
  }

  /** In particular, a sync during which nothing is cleared never asks for one. */
  lemma NeverAsksForRestart(start: State, worlds: seq<World>, actions: seq<Action>, b: nat, k: nat)
    requires Execution(start, worlds, actions) && Matched(start)
    requires forall j | 0 <= j < |actions| :: Honest(actions[j])
    requires b < k < |actions| && actions[b].Begin? && actions[k] == Finish(|worlds[b].procs|)
    requires forall c | b < c < k :: !actions[c].ClearAll?
    ensures |worlds[b].procs| < |worlds[k + 1].procs| && !worlds[k + 1].procs[|worlds[b].procs|].restart
  {
    RestartAskedExactly(start, worlds, actions, b, k);
  }

  /** Between its awaits a sync runs alone: while one is neither waiting nor done the next action is its own. */
  predicate RunsToItsAwaits(worlds: seq<World>, actions: seq<Action>)
    requires |actions| < |worlds|
  {
    forall k, i | 0 <= k < |actions| && 0 <= i < |worlds[k].procs| ::
      !worlds[k].procs[i].waiting && !worlds[k].procs[i].done ==> actions[k] == Look(i) || actions[k] == Finish(i)
  }

  /** A sync that wants only `m`, up to the check of `m`. */
  lemma BeginsAndWaits(reg: State, m: string) returns (w1: World, w2: World)
    requires m !in reg.book
    ensures w1 == Step(World(reg, []), Begin([m])) && |w1.procs| == 1
    ensures Enabled(w1, Look(0)) && w2 == Step(w1, Look(0))
    ensures w2 == World(reg, [Proc([m], reg.book.Keys, 0, true, {}, {}, false, false)])
  {
    w1 := Step(World(reg, []), Begin([m]));
    assert w1.procs == [Proc([m], reg.book.Keys, 0, false, {}, {}, false, false)];
    w2 := Step(w1, Look(0));
  }

  /** The check comes back and the sync ends. */
  lemma ReturnsAndEnds(w: World, m: string) returns (w1: World, w2: World)
    requires |w.procs| == 1 && w.procs[0].names == [m] && w.procs[0].at == 0 && w.procs[0].waiting && !w.procs[0].done
    ensures Enabled(w, Return(0, Adds)) && w1 == Step(w, Return(0, Adds))
    ensures |w1.procs| == 1 && w1.reg.book.Keys <= w.reg.book.Keys + {m}
    ensures Enabled(w1, Finish(0)) && w2 == Step(w1, Finish(0)) && |w2.procs| == 1
  {
    w1 := Step(w, Return(0, Adds));
    w2 := Step(w1, Finish(0));
  }

  lemma FiveSteps(w: seq<World>, a: seq<Action>)
    requires |w| == 6 && |a| == 5 && w[0] == World(w[0].reg, [])
    requires Linked(w, a, 0) && Linked(w, a, 1) && Linked(w, a, 2) && Linked(w, a, 3) && Linked(w, a, 4)
    ensures Execution(w[0].reg, w, a)
  {}

  /** A sync that wants `m` and not the recorded `n`, cleared while it awaits the check of `m`. */
  lemma ClearDuringCheck(n: string, m: string) returns (start: State, worlds: seq<World>, actions: seq<Action>)
    requires m != n
    ensures start == State(map[n := Tool(n)], {Tool(n)}) && Execution(start, worlds, actions)
    ensures actions == [Begin([m]), Look(0), ClearAll, Return(0, Adds), Finish(0)]
    ensures |worlds[0].procs| == 0 && forall k | 1 <= k <= 5 :: |worlds[k].procs| == 1
    ensures worlds[2].procs[0].waiting && worlds[3].procs[0].waiting
    ensures n in worlds[0].reg.book && n in worlds[2].reg.book && n !in worlds[3].reg.book && n !in worlds[4].reg.book
  {
    start := State(map[n := Tool(n)], {Tool(n)});
    actions := [Begin([m]), Look(0), ClearAll, Return(0, Adds), Finish(0)];
    var w1, w2 := BeginsAndWaits(start, m);
    var w3 := Step(w2, ClearAll);
    var w4, w5 := ReturnsAndEnds(w3, m);
    worlds := [World(start, []), w1, w2, w3, w4, w5];
    FiveSteps(worlds, actions);
  }

  /** And it happens: a sync that drops a recorded name `n` and awaits the check of another one, `m`, during
    * which the record is cleared. */
  lemma ClearDuringSyncAsksForRestart(n: string, m: string)
      returns (start: State, worlds: seq<World>, actions: seq<Action>)
    requires m != n
    ensures Execution(start, worlds, actions) && Matched(start) && RunsToItsAwaits(worlds, actions)
    ensures forall j | 0 <= j < |actions| :: Honest(actions[j])
    ensures actions == [Begin([m]), Look(0), ClearAll, Return(0, Adds), Finish(0)]
    ensures |worlds[5].procs| == 1 && worlds[5].procs[0].restart
  {
    start, worlds, actions := ClearDuringCheck(n, m);
    forall x ensures Tool(x) in start.sdk <==> x in start.book {
      if Tool(x) == Tool(n) { ToolInjective(x, n); }
    }
    assert ClearedAway(worlds, actions, 0, 4, n, 2);
    RestartAskedExactly(start, worlds, actions, 0, 4);
  }
}
