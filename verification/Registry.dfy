/** Reconciling the dynamic script tools with the manifest: one undisturbed sync, and interleaved ones. */
module Registry {
  const PREFIX: string := "ppsspp_script_"

  function Tool(name: string): string { PREFIX + name }

  datatype Entry = Entry(name: string, skeleton: bool)

  /** What becomes of one registration attempt: the contract check fails, `add_tool` raises, `add_tool`
    * returns without adding, or it adds. */
  datatype Outcome = Invalid | AddRaises | Silent | Adds

  /** `book` is the server's own record, `sdk` the names in the SDK's tool registry. */
  datatype State = State(book: map<string, string>, sdk: set<string>)

  datatype Report = Report(declared: nat, registered: nat, added: seq<string>, removed: set<string>,
                           skipped: seq<string>, failed: seq<string>, restartRequired: bool)

  /** The critical section that ends a registration, after the contract check. */
  function Land(s: State, name: string, o: Outcome): (State, bool) {
    if o.Invalid? then (s, false)
    else if name in s.book then (s, true)
    else match o
      case Adds => (State(s.book[name := Tool(name)], s.sdk + {Tool(name)}), true)
      case Silent => (State(s.book[name := Tool(name)], s.sdk), true)
      case _ => (s, false)
  }

  function Register(s: State, e: Entry, o: Outcome): (State, bool) {
    if e.skeleton then (s, false) else if e.name in s.book then (s, true) else Land(s, e.name, o)
  }

  function Unregister(s: State, name: string): (State, bool) {
    if name !in s.book then (s, false)
    else (State(s.book - {name}, s.sdk - {s.book[name]}), s.book[name] in s.sdk)
  }

  function Clear(s: State): State { s.(book := map[]) }

  predicate RestartRequired(s: State, removed: set<string>) {
    (exists n | n in s.book :: s.book[n] !in s.sdk) || (exists n | n in removed :: Tool(n) in s.sdk)
  }

  // ---------- what a sync amounts to ----------

  function Wanted(manifest: seq<Entry>): set<string> {
    set e | e in manifest && !e.skeleton :: e.name
  }

  /** The wanted names whose registration goes through. */
  function Good(wanted: set<string>, env: string -> Outcome): set<string> {
    set n | n in wanted && (env(n).Silent? || env(n).Adds?)
  }

  function SyncedNames(names: set<string>, wanted: set<string>, env: string -> Outcome): set<string> {
    names * wanted + Good(wanted, env)
  }

  function ToolsOf(names: set<string>): set<string> { set n | n in names :: Tool(n) }

  function ReallyAdded(names: set<string>, wanted: set<string>, env: string -> Outcome): set<string> {
    set n | n in Good(wanted, env) && n !in names && env(n).Adds?
  }

  function Synced(s: State, wanted: set<string>, env: string -> Outcome): State {
    State(map n | n in SyncedNames(s.book.Keys, wanted, env) :: Tool(n),
          s.sdk - ToolsOf(s.book.Keys - wanted) + ToolsOf(ReallyAdded(s.book.Keys, wanted, env)))
  }

  /** The record names every tool after its script. */
  predicate BookOk(s: State) { forall n | n in s.book :: s.book[n] == Tool(n) }

  lemma ToolInjective(a: string, b: string)
    requires Tool(a) == Tool(b)
    ensures a == b
  {
    assert a == Tool(a)[|PREFIX|..] && b == Tool(b)[|PREFIX|..];
  }

  lemma ToolsOfMember(names: set<string>, n: string)
    ensures Tool(n) in ToolsOf(names) <==> n in names
  {
    forall m | m in names && Tool(m) == Tool(n) ensures m == n { ToolInjective(m, n); }
  }

  /** Unregistering says whether a tool went: exactly if the name was on record and its tool in the SDK; then
    * neither is there any more. */
  lemma UnregisterReports(s: State, name: string)
    requires BookOk(s)
    ensures var (t, removed) := Unregister(s, name);
      && (removed <==> name in s.book && Tool(name) in s.sdk)
      && name !in t.book && (name in s.book ==> Tool(name) !in t.sdk)
  {}

  /** A second sync with the same manifest and outcomes changes nothing and reports no change. */
  lemma SyncIsIdempotent(s: State, wanted: set<string>, env: string -> Outcome)
    requires BookOk(s)
    ensures var t := Synced(s, wanted, env);
      && Synced(t, wanted, env) == t
      && Good(wanted, env) - t.book.Keys == {} && t.book.Keys - wanted == {}
      && wanted - t.book.Keys - Good(wanted, env) == wanted - s.book.Keys - Good(wanted, env)
  {
    var t := Synced(s, wanted, env);
    assert t.book.Keys == SyncedNames(s.book.Keys, wanted, env);
    assert SyncedNames(t.book.Keys, wanted, env) == t.book.Keys;
    assert t.book.Keys - wanted == {} && ReallyAdded(t.book.Keys, wanted, env) == {};
  }

  lemma ToolPresent(s: State, wanted: set<string>, env: string -> Outcome, n: string)
    ensures Tool(n) in Synced(s, wanted, env).sdk <==>
      (Tool(n) in s.sdk && !(n in s.book && n !in wanted)) || n in ReallyAdded(s.book.Keys, wanted, env)
  {
    ToolsOfMember(s.book.Keys - wanted, n);
    ToolsOfMember(ReallyAdded(s.book.Keys, wanted, env), n);
  }

  /** An undisturbed sync asks for a restart exactly when a kept tool had already vanished from the SDK
    * or a new one was accepted without being added. */
  lemma RestartExact(s: State, wanted: set<string>, env: string -> Outcome)
    requires BookOk(s)
    ensures RestartRequired(Synced(s, wanted, env), s.book.Keys - wanted) <==>
      || (exists n | n in s.book && n in wanted :: Tool(n) !in s.sdk)
      || (exists n | n in Good(wanted, env) && n !in s.book :: env(n).Silent? && Tool(n) !in s.sdk)
  {
    var t, gone := Synced(s, wanted, env), s.book.Keys - wanted;
    forall n | n in gone ensures Tool(n) !in t.sdk { ToolPresent(s, wanted, env, n); }
    forall n | n in t.book
      ensures Tool(n) !in t.sdk <==> Tool(n) !in s.sdk && (n in s.book || env(n).Silent?)
    {
      ToolPresent(s, wanted, env, n);
    }
    if n :| n in s.book && n in wanted && Tool(n) !in s.sdk { assert n in t.book; }
    if n :| n in Good(wanted, env) && n !in s.book && env(n).Silent? && Tool(n) !in s.sdk { assert n in t.book; }
  }

  // ---------- a series of syncs after a clear ----------

  /** One sync: what its manifest wants and what becomes of each registration. */
  datatype Sync = Sync(wanted: set<string>, env: string -> Outcome)

  /** The registry after the first `k` of a series of syncs. */
  function After(s: State, syncs: seq<Sync>, k: nat): State
    requires k <= |syncs|
  {
    if k == 0 then s else Synced(After(s, syncs, k - 1), syncs[k - 1].wanted, syncs[k - 1].env)
  }

  /** Sync `i` of the series can put `n` on record, and the later sync `j` does not want it. */
  predicate RecordedThenDropped(syncs: seq<Sync>, n: string, i: nat, j: nat) {
    i < j < |syncs| && n in Good(syncs[i].wanted, syncs[i].env) && n !in syncs[j].wanted
  }

  /** A name off the record comes back only through a sync that can register it. */
  lemma {:induction false} RecordedOnlyBySync(s: State, syncs: seq<Sync>, n: string, k: nat) returns (i: nat)
    requires k <= |syncs| && n !in s.book && n in After(s, syncs, k).book
    ensures i < k && n in Good(syncs[i].wanted, syncs[i].env)
  {
    if n in After(s, syncs, k - 1).book { i := RecordedOnlyBySync(s, syncs, n, k - 1); } else { i := k - 1; }
  }

  lemma {:induction false} LostOnlyByDrop(s: State, syncs: seq<Sync>, n: string, k: nat) returns (i: nat, j: nat)
    requires k <= |syncs| && n !in s.book && Tool(n) in s.sdk && Tool(n) !in After(s, syncs, k).sdk
    ensures j < k && RecordedThenDropped(syncs, n, i, j)
  {
    var t := After(s, syncs, k - 1);
    if Tool(n) in t.sdk {
      ToolPresent(t, syncs[k - 1].wanted, syncs[k - 1].env, n);
      j := k - 1;
      i := RecordedOnlyBySync(s, syncs, n, k - 1);
    } else {
      i, j := LostOnlyByDrop(s, syncs, n, k - 1);
    }
  }

  lemma KeptOrTakenOut(s: State, syncs: seq<Sync>, n: string, k: nat)
    requires k < |syncs| && n in After(s, syncs, k).book
    ensures n in syncs[k].wanted ==> n in After(s, syncs, k + 1).book
    ensures n !in syncs[k].wanted ==> Tool(n) !in After(s, syncs, k + 1).sdk
  {
    ToolPresent(After(s, syncs, k), syncs[k].wanted, syncs[k].env, n);
  }

  /** While every sync wants the name it stays on record. */
  lemma {:induction false} StaysRecorded(s: State, syncs: seq<Sync>, n: string, k: nat, j: nat)
    requires k <= j <= |syncs| && n in After(s, syncs, k).book && forall i | k <= i < j :: n in syncs[i].wanted
    ensures n in After(s, syncs, j).book
    decreases j - k
  {
    if k < j {
      KeptOrTakenOut(s, syncs, n, k);
      StaysRecorded(s, syncs, n, k + 1, j);
    }
  }

  lemma {:induction false} FirstDrop(syncs: seq<Sync>, n: string, k: nat, j: nat) returns (m: nat)
    requires k <= j < |syncs| && n !in syncs[j].wanted
    ensures k <= m <= j && n !in syncs[m].wanted && forall i | k <= i < m :: n in syncs[i].wanted
    decreases j - k
  {
    if n in syncs[k].wanted { m := FirstDrop(syncs, n, k + 1, j); } else { m := k; }
  }

  /** Once recorded, the first sync that does not want the name takes its tool out. */
  lemma DropRemoves(s: State, syncs: seq<Sync>, n: string, k: nat, j: nat) returns (m: nat)
    requires k <= j < |syncs| && n in After(s, syncs, k).book && n !in syncs[j].wanted
    ensures m < |syncs| && Tool(n) !in After(s, syncs, m + 1).sdk
  {
    m := FirstDrop(syncs, n, k, j);
    StaysRecorded(s, syncs, n, k, m);
    KeptOrTakenOut(s, syncs, n, m);
  }

  /** Clearing the record leaves its tools in the SDK. Over any series of syncs after the clear such a tool
    * is gone at some moment if and only if some sync recorded its name again and a later one dropped it. */
  lemma OrphanLeavesExactly(s: State, syncs: seq<Sync>, n: string)
    requires Tool(n) in s.sdk
    ensures (exists k | 0 <= k <= |syncs| :: Tool(n) !in After(Clear(s), syncs, k).sdk) <==>
      exists i: nat, j: nat :: RecordedThenDropped(syncs, n, i, j)
  {
    var t := Clear(s);
    if exists k | 0 <= k <= |syncs| :: Tool(n) !in After(t, syncs, k).sdk {
      var k :| 0 <= k <= |syncs| && Tool(n) !in After(t, syncs, k).sdk;
      var i, j := LostOnlyByDrop(t, syncs, n, k);
    }
    if exists i: nat, j: nat :: RecordedThenDropped(syncs, n, i, j) {
      var i: nat, j: nat :| RecordedThenDropped(syncs, n, i, j);
      assert n in After(t, syncs, i + 1).book;
      var m := DropRemoves(t, syncs, n, i + 1, j);
    }
  }

  /** Two syncs are enough: the first wants the name, whose tool `add_tool` finds already there, the second
    * does not. A sync that never wanted it leaves the tool where it is. */
  lemma TwoSyncsRecover(s: State, n: string)
    requires Tool(n) in s.sdk
    ensures var env := (m: string) => Silent;
      && Tool(n) in After(Clear(s), [Sync({}, env)], 1).sdk
      && Tool(n) !in After(Clear(s), [Sync({n}, env), Sync({}, env)], 2).sdk
  {
    var env := (m: string) => Silent;
    var one, two := [Sync({}, env)], [Sync({n}, env), Sync({}, env)];
    ToolPresent(Clear(s), {}, env, n);
    assert After(Clear(s), one, 1) == Synced(After(Clear(s), one, 0), {}, env);
    var t := After(Clear(s), two, 1);
    assert t == Synced(After(Clear(s), two, 0), {n}, env) && n in t.book;
    ToolPresent(t, {}, env, n);
    assert After(Clear(s), two, 2) == Synced(t, {}, env);
  }

  // ---------- the loops of a sync ----------

  /** `s` lists the set `names`, each name once. */
  ghost predicate Lists(s: seq<string>, names: set<string>) {
    (forall i, j | 0 <= i < j < |s| :: s[i] != s[j]) && forall n :: n in s <==> n in names
  }

  lemma ListsOneMore(s: seq<string>, names: set<string>, n: string)
    requires Lists(s, names) && n !in names
    ensures Lists(s + [n], names + {n})
  {
    assert forall k | 0 <= k < |s| :: s[k] in s;
  }

  function NamesIn(desired: seq<Entry>): set<string> { set e | e in desired :: e.name }

  lemma NamesGrow(desired: seq<Entry>, i: nat)
    requires i < |desired| && forall e | e in desired :: !e.skeleton
    requires forall j, k | 0 <= j < k < |desired| :: desired[j] != desired[k]
    ensures NamesIn(desired[..i + 1]) == NamesIn(desired[..i]) + {desired[i].name}
    ensures desired[i].name !in NamesIn(desired[..i])
  {
    assert desired[..i + 1] == desired[..i] + [desired[i]];
    forall e | e in desired[..i] ensures e.name != desired[i].name {
      var k :| 0 <= k < i && desired[k] == e;
      assert !desired[k].skeleton && !desired[i].skeleton && desired[k] != desired[i];
    }
  }

  lemma ToolsOfOneMore(names: set<string>, n: string)
    ensures ToolsOf(names + {n}) == ToolsOf(names) + {Tool(n)}
  {
    assert n in names + {n};
    forall t ensures t in ToolsOf(names + {n}) <==> t in ToolsOf(names) + {Tool(n)} {}
  }

  /** Considering one more wanted name. */
  lemma OneMore(names: set<string>, current: set<string>, env: string -> Outcome, n: string)
    requires n !in names
    ensures Good(names + {n}, env) == Good(names, env) + if env(n).Silent? || env(n).Adds? then {n} else {}
    ensures ToolsOf(ReallyAdded(current, names + {n}, env)) ==
      ToolsOf(ReallyAdded(current, names, env)) + if n !in current && env(n).Adds? then {Tool(n)} else {}
  {
    var was, now := ReallyAdded(current, names, env), ReallyAdded(current, names + {n}, env);
    if n !in current && env(n).Adds? {
      assert now == was + {n};
      ToolsOfOneMore(was, n);
    } else {
      assert now == was;
    }
  }

  /** The registration loop after considering `names`. */
  ghost predicate Progress(start: State, s: State, names: set<string>, env: string -> Outcome,
                           added: seq<string>, failed: seq<string>) {
    && Enrolled(start, s, names, env)
    && Lists(added, Good(names, env) - start.book.Keys)
    && Lists(failed, names - start.book.Keys - Good(names, env))
  }

  predicate Enrolled(start: State, s: State, names: set<string>, env: string -> Outcome) {
    && BookOk(s) && s.book.Keys == start.book.Keys + Good(names, env)
    && s.sdk == start.sdk + ToolsOf(ReallyAdded(start.book.Keys, names, env))
  }

  function Consider(start: State, s: State, env: string -> Outcome, n: string): (State, bool) {
    if n in start.book then (s, true) else Register(s, Entry(n, false), env(n))
  }

  lemma EnrolledStep(start: State, s: State, names: set<string>, env: string -> Outcome, n: string)
    requires Enrolled(start, s, names, env) && n !in names
    ensures var (t, ok) := Consider(start, s, env, n);
      Enrolled(start, t, names + {n}, env) && (ok <==> n in start.book || n in Good(names + {n}, env))
  {
    OneMore(names, start.book.Keys, env, n);
  }

  lemma ListsStep(current: set<string>, names: set<string>, env: string -> Outcome,
                  added: seq<string>, failed: seq<string>, n: string)
    requires n !in names && Lists(added, Good(names, env) - current)
    requires Lists(failed, names - current - Good(names, env))
    ensures var ok := n in current || n in Good(names + {n}, env);
      && Lists(if n in current || !ok then added else added + [n], Good(names + {n}, env) - current)
      && Lists(if ok then failed else failed + [n], names + {n} - current - Good(names + {n}, env))
  {
    var good, bad := Good(names, env) - current, names - current - Good(names, env);
    var good', bad' := Good(names + {n}, env) - current, names + {n} - current - Good(names + {n}, env);
    if n in current {
      assert good' == good && bad' == bad;
    } else if env(n).Silent? || env(n).Adds? {
      assert good' == good + {n} && bad' == bad;
      ListsOneMore(added, good, n);
    } else {
      assert good' == good && bad' == bad + {n};
      ListsOneMore(failed, bad, n);
    }
  }

  lemma ProgressStep(start: State, s: State, names: set<string>, env: string -> Outcome,
                     added: seq<string>, failed: seq<string>, n: string)
    requires Progress(start, s, names, env, added, failed) && n !in names
    ensures var (t, ok) := Consider(start, s, env, n);
      Progress(start, t, names + {n}, env, if n in start.book || !ok then added else added + [n],
               if ok then failed else failed + [n])
  {
    EnrolledStep(start, s, names, env, n);
    ListsStep(start.book.Keys, names, env, added, failed, n);
  }

  lemma WantedNames(manifest: seq<Entry>, desired: seq<Entry>)
    requires forall n :: n in Wanted(manifest) <==> Entry(n, false) in desired
    requires forall e | e in desired :: !e.skeleton
    ensures NamesIn(desired) == Wanted(manifest)
  {
    forall n ensures n in NamesIn(desired) <==> Entry(n, false) in desired {
      if n in NamesIn(desired) {
        var e :| e in desired && e.name == n;
        assert e == Entry(n, false);
      }
    }
  }

  /** Unregistering every one of `names`; those not on record are left alone. */
  function Retired(s: State, names: set<string>): State {
    State(s.book - names, s.sdk - ToolsOf(names * s.book.Keys))
  }

  lemma RetireOneMore(s: State, names: set<string>, n: string)
    requires BookOk(s) && n !in names
    ensures Retired(s, names + {n}) == Unregister(Retired(s, names), n).0
  {
    if n in s.book {
      assert (names + {n}) * s.book.Keys == names * s.book.Keys + {n};
      ToolsOfOneMore(names * s.book.Keys, n);
    } else {
      assert (names + {n}) * s.book.Keys == names * s.book.Keys;
    }
    assert s.book - (names + {n}) == (s.book - names) - {n};
  }

  /** Removing after adding amounts to the reconciled state: no removed tool is one just added. */
  lemma AddThenRetire(s: State, mid: State, wanted: set<string>, env: string -> Outcome)
    requires BookOk(s) && BookOk(mid)
    requires mid.book.Keys == s.book.Keys + Good(wanted, env)
    requires mid.sdk == s.sdk + ToolsOf(ReallyAdded(s.book.Keys, wanted, env))
    ensures Retired(mid, s.book.Keys - wanted) == Synced(s, wanted, env)
  {
    var t := Retired(mid, s.book.Keys - wanted);
    assert (s.book.Keys - wanted) * mid.book.Keys == s.book.Keys - wanted;
    var fresh', gone := ReallyAdded(s.book.Keys, wanted, env), s.book.Keys - wanted;
    forall x | x in ToolsOf(fresh') ensures x !in ToolsOf(gone) {
      var n :| n in fresh' && x == Tool(n);
      ToolsOfMember(gone, n);
    }
    assert t.sdk == Synced(s, wanted, env).sdk;
    assert t.book.Keys == SyncedNames(s.book.Keys, wanted, env);
    assert t.book == Synced(s, wanted, env).book;
  }

  // ---------- the object ----------

  class ScriptTools {
    var book: map<string, string>
    var sdk: set<string>

    ghost function View(): State
      reads this
    {
      State(book, sdk)
    }

    constructor (static_: set<string>)
      ensures View() == State(map[], static_)
    {
      book, sdk := map[], static_;
    }

    method RegisterExposedEntry(e: Entry, outcome: Outcome) returns (ok: bool)
      modifies this
      ensures (View(), ok) == Register(old(View()), e, outcome)
    {
      if e.skeleton { return false; }
      if e.name in book { return true; }
      match outcome {
        case Invalid => return false;
        case AddRaises => return false;
        case Adds => sdk := sdk + {Tool(e.name)};
        case Silent =>
      }
      book := book[e.name := Tool(e.name)];
      ok := true;
    }

    method UnregisterExposedTool(name: string) returns (removed: bool)
      modifies this
      ensures (View(), removed) == Unregister(old(View()), name)
    {
      if name !in book { return false; }
      var tool := book[name];
      book := book - {name};
      removed := tool in sdk;
      sdk := sdk - {tool};
    }

    method ClearExposedRegistry()
      modifies this
      ensures View() == Clear(old(View()))
    {
      book := map[];
    }

    /** Splits the manifest's exposed entries: distinct wanted names in order, and skipped skeletons. */
    method Desired(manifest: seq<Entry>) returns (desired: seq<Entry>, skipped: seq<string>)
      ensures forall n :: n in Wanted(manifest) <==> Entry(n, false) in desired
      ensures forall e | e in desired :: !e.skeleton
      ensures forall i, j | 0 <= i < j < |desired| :: desired[i] != desired[j]
      ensures forall n :: n in skipped <==> Entry(n, true) in manifest
    {
      desired, skipped := [], [];
      for i := 0 to |manifest|
        invariant forall n :: Entry(n, false) in desired <==> Entry(n, false) in manifest[..i]
        invariant forall e | e in desired :: !e.skeleton
        invariant forall j, k | 0 <= j < k < |desired| :: desired[j] != desired[k]
        invariant forall n :: n in skipped <==> Entry(n, true) in manifest[..i]
      {
        if manifest[i].skeleton {
          skipped := skipped + [manifest[i].name];
        } else if manifest[i] !in desired {
          desired := desired + [manifest[i]];
        }
      }
      assert manifest[..|manifest|] == manifest;
      forall n ensures n in Wanted(manifest) <==> Entry(n, false) in manifest {
        if n in Wanted(manifest) {
          var e :| e in manifest && !e.skeleton && e.name == n;
          assert e == Entry(n, false);
        } else {
          assert forall e | e in manifest && e.name == n :: e.skeleton;
        }
      }
    }

    /** The registration loop, over the names missing from the snapshot. */
    method AddMissing(desired: seq<Entry>, current: set<string>, env: string -> Outcome)
        returns (added: seq<string>, failed: seq<string>)
      requires BookOk(View()) && book.Keys == current
      requires forall e | e in desired :: !e.skeleton
      requires forall i, j | 0 <= i < j < |desired| :: desired[i] != desired[j]
      modifies this
      ensures BookOk(View()) && book.Keys == current + Good(NamesIn(desired), env)
      ensures sdk == old(sdk) + ToolsOf(ReallyAdded(current, NamesIn(desired), env))
      ensures Lists(added, Good(NamesIn(desired), env) - current)
      ensures Lists(failed, NamesIn(desired) - current - Good(NamesIn(desired), env))
    {
      added, failed := [], [];
      ghost var start := View();
      for i := 0 to |desired|
        invariant Progress(start, View(), NamesIn(desired[..i]), env, added, failed)
      {
        var e := desired[i];
        ghost var was, wasAdded, wasFailed := View(), added, failed;
        if e.name !in current {
          var ok := RegisterExposedEntry(e, env(e.name));
          if ok {
            if e.name in book { added := added + [e.name]; }
          } else if !e.skeleton {
            failed := failed + [e.name];
          }
        }
        NamesGrow(desired, i);
        ProgressStep(start, was, NamesIn(desired[..i]), env, wasAdded, wasFailed, e.name);
      }
      assert desired[..|desired|] == desired;
    }

    /** The removal loop; the source's report lists these names alphabetically. */
    method RetireStale(stale: set<string>) returns (removed: set<string>)
      requires BookOk(View())
      modifies this
      ensures View() == Retired(old(View()), stale) && removed == stale
    {
      removed := {};
      ghost var start := View();
      while removed != stale
        invariant removed <= stale && View() == Retired(start, removed)
        decreases |stale - removed|
      {
        var name :| name in stale - removed;
        RetireOneMore(start, removed, name);
        var gone := UnregisterExposedTool(name);
        removed := removed + {name};
      }
    }

    /** Does the SDK hold every tool on record and none of the removed ones? */
    method Reconciled(removed: set<string>) returns (ok: bool)
      ensures ok <==> !RestartRequired(View(), removed)
    {
      var bookkept := set n | n in book :: book[n];
      var gone := set n | n in removed :: Tool(n);
      ok := bookkept <= sdk && gone * sdk == {};
      assert forall n | n in book :: book[n] in bookkept;
      assert forall n | n in removed :: Tool(n) in gone;
      if n :| n in removed && Tool(n) in sdk { assert Tool(n) in gone * sdk; }
      if t :| t in gone * sdk { assert t in gone; }
    }

    /** One sync with nothing else running. */
    method SyncExposedTools(manifest: seq<Entry>, env: string -> Outcome) returns (r: Report)
      requires BookOk(View())
      modifies this
      ensures View() == Synced(old(View()), Wanted(manifest), env)
      ensures r.declared == |manifest| && r.registered == |book|
      ensures Lists(r.added, Good(Wanted(manifest), env) - old(book.Keys))
      ensures r.removed == old(book.Keys) - Wanted(manifest)
      ensures Lists(r.failed, Wanted(manifest) - old(book.Keys) - Good(Wanted(manifest), env))
      ensures forall n :: n in r.skipped <==> Entry(n, true) in manifest
      ensures r.restartRequired <==> RestartRequired(View(), r.removed)
    {
      var desired, skipped := Desired(manifest);
      var current := book.Keys;
      var added, failed := AddMissing(desired, current, env);
      var wanted := NamesIn(desired);
      WantedNames(manifest, desired);
      ghost var mid := View();
      var removed := RetireStale(current - wanted);
      AddThenRetire(old(View()), mid, wanted, env);
      var reconciled := Reconciled(removed);
      r := Report(|manifest|, |book|, added, removed, skipped, failed, !reconciled);
    }
  }
}
