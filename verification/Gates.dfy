/** Scoring a run: the shared-iterator sequence check, and the gate record next to the verdict. */
module Gates {
  import opened Text

  // ---------- the sequence gate ----------

  /** Strictly increasing places in `names` where the expected names stand. */
  ghost predicate Embeds<T>(expected: seq<T>, names: seq<T>, at: seq<nat>) {
    && |at| == |expected|
    && (forall i | 0 <= i < |at| :: at[i] < |names| && names[at[i]] == expected[i])
    && (forall i, j | 0 <= i < j < |at| :: at[i] < at[j])
  }

  ghost predicate IsSubsequence<T>(expected: seq<T>, names: seq<T>) { exists at :: Embeds(expected, names, at) }

  /** Taking the first match every time. */
  predicate Greedy<T(==)>(expected: seq<T>, names: seq<T>)
    decreases |names|
  {
    if expected == [] then true
    else if names == [] then false
    else Greedy(if names[0] == expected[0] then expected[1..] else expected, names[1..])
  }

  function Shifted(at: seq<nat>): seq<nat> { seq(|at|, i requires 0 <= i < |at| => at[i] + 1) }

  lemma EmbedsLater<T>(expected: seq<T>, names: seq<T>, rest: seq<nat>)
    requires names != [] && Embeds(expected, names[1..], rest)
    ensures Embeds(expected, names, Shifted(rest))
  {}

  lemma EmbedsFirst<T>(expected: seq<T>, names: seq<T>, at: seq<nat>)
    requires expected != [] && names != [] && names[0] == expected[0]
    requires Embeds(expected[1..], names, at) && forall i | 0 <= i < |at| :: at[i] > 0
    ensures Embeds(expected, names, [0] + at)
  {
    assert forall i | 0 < i < |expected| :: ([0] + at)[i] == at[i - 1] && expected[i] == expected[1..][i - 1];
  }

  lemma {:induction false} GreedyEmbeds<T>(expected: seq<T>, names: seq<T>) returns (at: seq<nat>)
    requires Greedy(expected, names)
    ensures Embeds(expected, names, at)
    decreases |names|
  {
    if expected == [] { return []; }
    if names[0] == expected[0] {
      var rest := GreedyEmbeds(expected[1..], names[1..]);
      EmbedsLater(expected[1..], names, rest);
      EmbedsFirst(expected, names, Shifted(rest));
      at := [0] + Shifted(rest);
    } else {
      var rest := GreedyEmbeds(expected, names[1..]);
      EmbedsLater(expected, names, rest);
      at := Shifted(rest);
    }
  }

  lemma {:induction false} EmbeddedIsFound<T>(expected: seq<T>, names: seq<T>, at: seq<nat>)
    requires Embeds(expected, names, at)
    ensures Greedy(expected, names)
    decreases |names|
  {
    if expected != [] {
      assert at[0] < |names|;
      var drop := if names[0] == expected[0] then 1 else 0;
      var rest := at[drop..];
      assert forall i | 0 <= i < |rest| :: rest[i] > 0;
      EmbeddedIsFound(expected[drop..], names[1..], seq(|rest|, i requires 0 <= i < |rest| => rest[i] - 1));
      assert expected[0..] == expected;
    }
  }

  /** Never passing over a first match loses nothing: the greedy check accepts exactly the subsequences. */
  lemma GreedyExact<T>(expected: seq<T>, names: seq<T>)
    ensures Greedy(expected, names) <==> IsSubsequence(expected, names)
  {
    if Greedy(expected, names) { var at := GreedyEmbeds(expected, names); }
    if IsSubsequence(expected, names) {
      var at :| Embeds(expected, names, at);
      EmbeddedIsFound(expected, names, at);
    }
  }

  /** One recorded tool call; pseudo calls are documentation reads. A call's name may be missing. */
  datatype ToolCall = ToolCall(name: Option<string>, pseudo: bool)

  function RealNames(calls: seq<ToolCall>): seq<Option<string>> {
    if calls == [] then []
    else RealNames(calls[..|calls| - 1]) + if calls[|calls| - 1].pseudo then [] else [calls[|calls| - 1].name]
  }

  /** The places of the calls that are no documentation reads. */
  ghost predicate RealPlaces(calls: seq<ToolCall>, at: seq<nat>) {
    && (forall k | 0 <= k < |at| :: at[k] < |calls| && !calls[at[k]].pseudo)
    && (forall j, k | 0 <= j < k < |at| :: at[j] < at[k])
    && (forall i: nat | i < |calls| && !calls[i].pseudo :: i in at)
  }

  lemma OneMorePlace(calls: seq<ToolCall>, before: seq<nat>)
    requires calls != [] && RealPlaces(calls[..|calls| - 1], before)
    ensures RealPlaces(calls, if calls[|calls| - 1].pseudo then before else before + [|calls| - 1])
  {
    var n, init := |calls| - 1, calls[..|calls| - 1];
    var at := if calls[n].pseudo then before else before + [n];
    assert forall i | 0 <= i < n :: init[i] == calls[i];
    forall i: nat | i < |calls| && !calls[i].pseudo ensures i in at {
      if i < n { assert i in before; } else { assert at[|before|] == n; }
    }
  }

  predicate NamedAt(calls: seq<ToolCall>, at: seq<nat>, names: seq<Option<string>>) {
    |at| == |names| && forall k | 0 <= k < |at| :: at[k] < |calls| && names[k] == calls[at[k]].name
  }

  lemma NamedLonger(calls: seq<ToolCall>, c: ToolCall, at: seq<nat>, names: seq<Option<string>>)
    requires NamedAt(calls, at, names)
    ensures NamedAt(calls + [c], at, names) && NamedAt(calls + [c], at + [|calls|], names + [c.name])
  {}

  lemma OneMoreName(calls: seq<ToolCall>, before: seq<nat>)
    requires calls != [] && NamedAt(calls[..|calls| - 1], before, RealNames(calls[..|calls| - 1]))
    ensures NamedAt(calls, if calls[|calls| - 1].pseudo then before else before + [|calls| - 1], RealNames(calls))
  {
    var init, c := calls[..|calls| - 1], calls[|calls| - 1];
    NamedLonger(init, c, before, RealNames(init));
    assert init + [c] == calls && RealNames(init) + [] == RealNames(init);
  }

  /** The names are those of exactly these calls, in their order. */
  lemma {:induction false} RealNamesExact(calls: seq<ToolCall>) returns (at: seq<nat>)
    ensures RealPlaces(calls, at) && NamedAt(calls, at, RealNames(calls))
  {
    if calls == [] { return []; }
    var n := |calls| - 1;
    var before := RealNamesExact(calls[..n]);
    OneMorePlace(calls, before);
    OneMoreName(calls, before);
    at := if calls[n].pseudo then before else before + [n];
  }

  /** `all(name in it for name in expected)`: membership tests that share one iterator, each consuming it
    * up to and including its match. */
  method SequenceGate(expected: seq<string>, calls: seq<ToolCall>) returns (ok: bool)
    ensures ok <==>
      IsSubsequence(seq(|expected|, i requires 0 <= i < |expected| => Some(expected[i])), RealNames(calls))
  {
    var names := [];
    for i := 0 to |calls|
      invariant names == RealNames(calls[..i])
    {
      assert calls[..i + 1][..i] == calls[..i];
      if !calls[i].pseudo { names := names + [calls[i].name]; }
    }
    assert calls[..|calls|] == calls;
    ghost var wanted := seq(|expected|, i requires 0 <= i < |expected| => Some(expected[i]));
    GreedyExact(wanted, names);
    var pos := 0;
    for i := 0 to |expected|
      invariant 0 <= pos <= |names|
      invariant Greedy(wanted, names) <==> Greedy(wanted[i..], names[pos..])
    {
      assert wanted[i..][1..] == wanted[i + 1..];
      var found := false;
      while pos < |names| && !found
        invariant 0 <= pos <= |names|
        invariant Greedy(wanted, names) <==> Greedy(if found then wanted[i + 1..] else wanted[i..], names[pos..])
        decreases |names| - pos, !found
      {
        assert names[pos..][1..] == names[pos + 1..];
        found := names[pos] == Some(expected[i]);
        pos := pos + 1;
      }
      if !found { return false; }
    }
    ok := true;
  }

  // ---------- the gate record ----------

  datatype GateResult = GateResult(kind: string, pass: bool)

  function Kinds(gates: seq<GateResult>): seq<string> { seq(|gates|, i requires 0 <= i < |gates| => gates[i].kind) }

  function Count(kinds: seq<string>, k: string): nat {
    if kinds == [] then 0 else Count(kinds[..|kinds| - 1], k) + if kinds[|kinds| - 1] == k then 1 else 0
  }

  function KeyFor(kind: string, n: nat): string { if n == 1 then kind else kind + "#" + Decimal(n) }

  /** The key of the last of `kinds`. */
  function KeyOfLast(kinds: seq<string>): string
    requires kinds != []
  {
    KeyFor(kinds[|kinds| - 1], Count(kinds, kinds[|kinds| - 1]))
  }

  function KeyAt(kinds: seq<string>, i: nat): string
    requires i < |kinds|
  {
    KeyOfLast(kinds[..i + 1])
  }

  function Record(gates: seq<GateResult>): map<string, bool> {
    if gates == [] then map[]
    else Record(gates[..|gates| - 1])[KeyOfLast(Kinds(gates)) := gates[|gates| - 1].pass]
  }

  method GatesRecord(gates: seq<GateResult>) returns (out: map<string, bool>)
    ensures out == Record(gates)
  {
    var seen: map<string, nat> := map[];
    out := map[];
    for i := 0 to |gates|
      invariant out == Record(gates[..i])
      invariant forall k :: Count(Kinds(gates[..i]), k) == if k in seen then seen[k] else 0
    {
      assert gates[..i + 1][..i] == gates[..i];
      assert Kinds(gates[..i + 1])[..i] == Kinds(gates[..i]);
      var t := gates[i].kind;
      seen := seen[t := (if t in seen then seen[t] else 0) + 1];
      out := out[KeyFor(t, seen[t]) := gates[i].pass];
    }
    assert gates[..|gates|] == gates;
  }

  // ---------- when two gates share a key ----------

  lemma LastHash(u: string, n: nat, k: nat)
    requires k < |u + "#" + Decimal(n)| && (u + "#" + Decimal(n))[k] == '#'
    ensures k <= |u|
  {
    DecimalRoundTrip(n);
    var d := Decimal(n);
    assert forall j | |u| < j < |u + "#" + d| :: (u + "#" + d)[j] == d[j - |u| - 1] && d[j - |u| - 1] in d;
  }

  lemma HashUnique(u: string, m: nat, v: string, n: nat)
    requires u + "#" + Decimal(m) == v + "#" + Decimal(n)
    ensures u == v && m == n
  {
    var s := u + "#" + Decimal(m);
    LastHash(u, m, |v|);
    LastHash(v, n, |u|);
    assert u == s[..|u|] == v && Decimal(m) == s[|u| + 1..] == Decimal(n);
    DecimalInjective(m, n);
  }

  lemma {:induction false} CountGrows(kinds: seq<string>, i: nat, j: nat, k: string)
    requires i <= j <= |kinds|
    ensures Count(kinds[..i], k) <= Count(kinds[..j], k)
    ensures i < j && kinds[j - 1] == k ==> Count(kinds[..i], k) < Count(kinds[..j], k)
    decreases j
  {
    if i < j {
      assert kinds[..j][..j - 1] == kinds[..j - 1];
      CountGrows(kinds, i, j - 1, k);
    }
  }

  function Nth(kinds: seq<string>, i: nat): nat
    requires i < |kinds|
  {
    Count(kinds[..i + 1], kinds[i])
  }

  /** Two gates share a key only when one of them is literally named like the other's numbered key. */
  lemma SharedKey(kinds: seq<string>, i: nat, j: nat)
    requires i < j < |kinds| && KeyAt(kinds, i) == KeyAt(kinds, j)
    ensures || (Nth(kinds, j) >= 2 && kinds[i] == kinds[j] + "#" + Decimal(Nth(kinds, j)))
            || (Nth(kinds, i) >= 2 && kinds[j] == kinds[i] + "#" + Decimal(Nth(kinds, i)))
  {
    assert KeyAt(kinds, i) == KeyFor(kinds[i], Nth(kinds, i)) && KeyAt(kinds, j) == KeyFor(kinds[j], Nth(kinds, j));
    CountGrows(kinds, 0, i + 1, kinds[i]);
    CountGrows(kinds, 0, j + 1, kinds[j]);
    if kinds[i] == kinds[j] { CountGrows(kinds, i + 1, j + 1, kinds[j]); }
    if Nth(kinds, i) >= 2 && Nth(kinds, j) >= 2 { HashUnique(kinds[i], Nth(kinds, i), kinds[j], Nth(kinds, j)); }
  }

  predicate KeysDistinct(kinds: seq<string>) {
    forall i, j | 0 <= i < j < |kinds| :: KeyAt(kinds, i) != KeyAt(kinds, j)
  }

  /** Some gate's type reads like the key that an n-th gate of another type gets. */
  ghost predicate Clash(kinds: seq<string>) {
    exists i, u, n | 0 <= i < |kinds| && 2 <= n <= Count(kinds, u) :: kinds[i] == u + "#" + Decimal(n)
  }

  lemma {:induction false} FindNth(kinds: seq<string>, u: string, n: nat) returns (j: nat)
    requires 1 <= n <= Count(kinds, u)
    ensures j < |kinds| && kinds[j] == u && Nth(kinds, j) == n
  {
    var last := |kinds| - 1;
    if n <= Count(kinds[..last], u) {
      j := FindNth(kinds[..last], u, n);
      assert kinds[..last][..j + 1] == kinds[..j + 1];
    } else {
      j := last;
      assert kinds[..last + 1] == kinds;
    }
  }

  lemma SharedKeyClashes(kinds: seq<string>, i: nat, j: nat)
    requires i < j < |kinds| && KeyAt(kinds, i) == KeyAt(kinds, j)
    ensures Clash(kinds)
  {
    SharedKey(kinds, i, j);
    CountGrows(kinds, i + 1, |kinds|, kinds[i]);
    CountGrows(kinds, j + 1, |kinds|, kinds[j]);
    assert kinds[..|kinds|] == kinds;
  }

  lemma ClashSharesKey(kinds: seq<string>, i: nat, u: string, n: nat)
    requires i < |kinds| && 2 <= n <= Count(kinds, u) && kinds[i] == u + "#" + Decimal(n)
    ensures !KeysDistinct(kinds)
  {
    CountGrows(kinds, 0, i + 1, kinds[i]);
    CountGrows(kinds, i + 1, |kinds|, kinds[i]);
    assert kinds[..|kinds|] == kinds;
    var a := FindNth(kinds, kinds[i], 1);
    var b := FindNth(kinds, u, n);
    assert KeyAt(kinds, a) == KeyFor(kinds[a], 1) && KeyAt(kinds, b) == KeyFor(u, n);
    assert |kinds[a]| > |kinds[b]|;
  }

  /** Every gate keeps a key of its own if and only if no type in the list clashes. */
  lemma KeysDistinctExactly(kinds: seq<string>)
    ensures KeysDistinct(kinds) <==> !Clash(kinds)
  {
    if !KeysDistinct(kinds) {
      var i, j :| 0 <= i < j < |kinds| && KeyAt(kinds, i) == KeyAt(kinds, j);
      SharedKeyClashes(kinds, i, j);
    }
    if Clash(kinds) {
      var i, u, n :| 0 <= i < |kinds| && 2 <= n <= Count(kinds, u) && kinds[i] == u + "#" + Decimal(n);
      ClashSharesKey(kinds, i, u, n);
    }
  }

  // ---------- what the record holds ----------

  predicate LastWriter(kinds: seq<string>, i: nat)
    requires i < |kinds|
  {
    forall j | i < j < |kinds| :: KeyAt(kinds, j) != KeyAt(kinds, i)
  }

  lemma KeyAtPrefix(kinds: seq<string>, n: nat, i: nat)
    requires i < n <= |kinds|
    ensures KeyAt(kinds[..n], i) == KeyAt(kinds, i)
  {
    assert kinds[..n][..i + 1] == kinds[..i + 1];
  }

  /** The keys of all gates but the last are those of the shorter list. */
  lemma AllButLast(gates: seq<GateResult>)
    requires gates != []
    ensures var n := |gates| - 1;
      && Kinds(gates[..n]) == Kinds(gates)[..n] && KeyAt(Kinds(gates), n) == KeyOfLast(Kinds(gates))
      && forall i | 0 <= i < n :: KeyAt(Kinds(gates[..n]), i) == KeyAt(Kinds(gates), i)
  {
    var n, kinds := |gates| - 1, Kinds(gates);
    assert kinds[..n + 1] == kinds && Kinds(gates[..n]) == kinds[..n];
    forall i | 0 <= i < n ensures KeyAt(Kinds(gates[..n]), i) == KeyAt(kinds, i) { KeyAtPrefix(kinds, n, i); }
  }

  predicate Explains(gates: seq<GateResult>, i: nat, k: string, pass: bool) {
    i < |gates| && KeyAt(Kinds(gates), i) == k && LastWriter(Kinds(gates), i) && gates[i].pass == pass
  }

  lemma {:induction false} RecordHasKeys(gates: seq<GateResult>)
    ensures forall i | 0 <= i < |gates| :: KeyAt(Kinds(gates), i) in Record(gates)
  {
    if gates != [] {
      AllButLast(gates);
      RecordHasKeys(gates[..|gates| - 1]);
    }
  }

  lemma ExplainsLonger(gates: seq<GateResult>, i: nat, k: string, pass: bool)
    requires gates != [] && Explains(gates[..|gates| - 1], i, k, pass) && k != KeyAt(Kinds(gates), |gates| - 1)
    ensures Explains(gates, i, k, pass)
  {
    AllButLast(gates);
    var n, kinds := |gates| - 1, Kinds(gates);
    forall j | i < j < |kinds| ensures KeyAt(kinds, j) != k {
      if j < n { assert KeyAt(Kinds(gates[..n]), j) == KeyAt(kinds, j); }
    }
  }

  /** Each entry is the outcome of the last gate that has its key. */
  lemma {:induction false} RecordExact(gates: seq<GateResult>, k: string) returns (i: nat)
    requires k in Record(gates)
    ensures Explains(gates, i, k, Record(gates)[k])
  {
    var n := |gates| - 1;
    AllButLast(gates);
    if k == KeyAt(Kinds(gates), n) {
      i := n;
    } else {
      i := RecordExact(gates[..n], k);
      ExplainsLonger(gates, i, k, Record(gates[..n])[k]);
    }
  }

  lemma {:induction false} SizeDistinct(gates: seq<GateResult>)
    ensures |Record(gates)| <= |gates|
    ensures |Record(gates)| == |gates| <==> KeysDistinct(Kinds(gates))
  {
    if gates != [] {
      var n, kinds := |gates| - 1, Kinds(gates);
      var m, k := Record(gates[..n]), KeyAt(kinds, n);
      AllButLast(gates);
      SizeDistinct(gates[..n]);
      assert Record(gates).Keys == m.Keys + {k};
      RecordHasKeys(gates[..n]);
      if k in m {
        var i := RecordExact(gates[..n], k);
        assert KeyAt(kinds, i) == KeyAt(kinds, n);
      }
      DistinctLast(kinds);
    }
  }

  lemma DistinctLast(kinds: seq<string>)
    requires kinds != []
    ensures var n := |kinds| - 1;
      KeysDistinct(kinds) <==>
        KeysDistinct(kinds[..n]) && forall i | 0 <= i < n :: KeyAt(kinds[..n], i) != KeyAt(kinds, n)
  {
    var n := |kinds| - 1;
    forall i | 0 <= i < n ensures KeyAt(kinds[..n], i) == KeyAt(kinds, i) { KeyAtPrefix(kinds, n, i); }
  }

  /** The record has one entry per gate exactly when no types clash. */
  lemma RecordSize(gates: seq<GateResult>)
    ensures |Record(gates)| <= |gates|
    ensures |Record(gates)| == |gates| <==> !Clash(Kinds(gates))
  {
    KeysDistinctExactly(Kinds(gates));
    SizeDistinct(gates);
  }

  // ---------- the record against the verdict ----------

  const KNOWN: seq<string> := ["first_tool", "no_tool", "params", "sequence", "answer_contains", "recovery",
                               "tool_used", "final_call_ok", "result_field", "file_saved", "boot_order"]

  predicate Success(gates: seq<GateResult>) { gates != [] && forall g | g in gates :: g.pass }

  /** What a reader of the record concludes: it is not empty and all its entries are true. */
  predicate RecordOk(gates: seq<GateResult>) {
    Record(gates) != map[] && forall k | k in Record(gates) :: Record(gates)[k]
  }

  /** Results as scored: a gate of an unknown type fails. */
  predicate Scored(gates: seq<GateResult>) { forall g | g in gates && g.kind !in KNOWN :: !g.pass }

  /** `evaluate`: the checks themselves are given. */
  method Evaluate(kinds: seq<string>, check: nat -> bool) returns (gates: seq<GateResult>, success: bool)
    ensures Kinds(gates) == kinds && Scored(gates)
    ensures forall i | 0 <= i < |kinds| :: gates[i].pass == (kinds[i] in KNOWN && check(i))
    ensures success <==> Success(gates)
  {
    gates, success := [], true;
    for i := 0 to |kinds|
      invariant |gates| == i && forall j | 0 <= j < i :: gates[j] == GateResult(kinds[j], kinds[j] in KNOWN && check(j))
      invariant success <==> forall g | g in gates :: g.pass
    {
      var ok := kinds[i] in KNOWN && check(i);
      gates := gates + [GateResult(kinds[i], ok)];
      success := success && ok;
    }
    success := success && gates != [];
  }

  /** A success always reads as one. */
  lemma SuccessReadsAsSuccess(gates: seq<GateResult>)
    requires Success(gates)
    ensures RecordOk(gates)
  {
    RecordHasKeys(gates);
    assert KeyAt(Kinds(gates), 0) in Record(gates);
    forall k | k in Record(gates) ensures Record(gates)[k] {
      var i := RecordExact(gates, k);
      assert gates[i] in gates;
    }
  }

  lemma {:induction false} FinalWriter(kinds: seq<string>, i: nat) returns (j: nat)
    requires i < |kinds|
    ensures i <= j < |kinds| && KeyAt(kinds, j) == KeyAt(kinds, i) && LastWriter(kinds, j)
    decreases |kinds| - i
  {
    if LastWriter(kinds, i) {
      j := i;
    } else {
      var k :| i < k < |kinds| && KeyAt(kinds, k) == KeyAt(kinds, i);
      j := FinalWriter(kinds, k);
    }
  }

  /** Before anything is scored: every key will be written last by a gate of a known type, although some
    * gate has an unknown one. */
  predicate Misreadable(kinds: seq<string>) {
    && (exists i | 0 <= i < |kinds| :: kinds[i] !in KNOWN)
    && (forall i | 0 <= i < |kinds| :: LastWriter(kinds, i) ==> kinds[i] in KNOWN)
  }

  lemma WritersValue(gates: seq<GateResult>, i: nat)
    requires i < |gates| && LastWriter(Kinds(gates), i)
    ensures KeyAt(Kinds(gates), i) in Record(gates) && Record(gates)[KeyAt(Kinds(gates), i)] == gates[i].pass
  {
    RecordHasKeys(gates);
    var j := RecordExact(gates, KeyAt(Kinds(gates), i));
    assert i == j;
  }

  /** A record of scored gates that reads as success without being one comes from a misreadable list. */
  lemma MisreadMeansMisreadable(gates: seq<GateResult>)
    requires Scored(gates) && RecordOk(gates) && !Success(gates)
    ensures Misreadable(Kinds(gates))
  {
    var kinds := Kinds(gates);
    forall i | 0 <= i < |kinds| && LastWriter(kinds, i) ensures kinds[i] in KNOWN {
      WritersValue(gates, i);
      assert gates[i] in gates;
    }
    assert gates != [];
    var g :| g in gates && !g.pass;
    var i :| 0 <= i < |gates| && gates[i] == g;
    if kinds[i] in KNOWN {
      var j := FinalWriter(kinds, i);
      WritersValue(gates, j);
      if i < j {
        SharedKey(kinds, i, j);
        assert '#' in "#";
        KnownHaveNoHash(kinds[i]);
        KnownHaveNoHash(kinds[j]);
      }
    }
  }

  lemma KnownHaveNoHash(kind: string)
    requires kind in KNOWN
    ensures '#' !in kind
  {}

  /** Such a list does mislead: when all its gates of known types pass, the record reads as success. */
  lemma MisreadableMisleads(gates: seq<GateResult>)
    requires Misreadable(Kinds(gates)) && forall g | g in gates :: g.pass <==> g.kind in KNOWN
    ensures RecordOk(gates) && !Success(gates)
  {
    var kinds := Kinds(gates);
    RecordHasKeys(gates);
    assert KeyAt(kinds, 0) in Record(gates);
    forall k | k in Record(gates) ensures Record(gates)[k] {
      var i := RecordExact(gates, k);
      assert gates[i] in gates;
    }
    var i :| 0 <= i < |kinds| && kinds[i] !in KNOWN;
    assert gates[i] in gates;
  }

  ghost predicate Disagrees(gates: seq<GateResult>, kinds: seq<string>) {
    Kinds(gates) == kinds && Scored(gates) && RecordOk(gates) != Success(gates)
  }

  /** For a fixed list of gate types the record and the verdict can disagree if and only if the list is
    * misreadable; otherwise "not empty and all true" on the record is the success flag, whatever the run. */
  lemma RecordAgreesExactly(kinds: seq<string>)
    ensures Misreadable(kinds) <==> exists gates :: Disagrees(gates, kinds)
  {
    if Misreadable(kinds) {
      var gates := seq(|kinds|, i requires 0 <= i < |kinds| => GateResult(kinds[i], kinds[i] in KNOWN));
      assert Kinds(gates) == kinds;
      MisreadableMisleads(gates);
      assert Disagrees(gates, kinds);
    }
    if gates :| Disagrees(gates, kinds) {
      if Success(gates) { SuccessReadsAsSuccess(gates); }
      MisreadMeansMisreadable(gates);
    }
  }

  /** One such list: a gate literally named "first_tool#2" between two "first_tool" gates. */
  lemma MisreadExample()
    ensures Misreadable(["first_tool", "first_tool#2", "first_tool"])
  {
    var kinds := ["first_tool", "first_tool#2", "first_tool"];
    assert kinds[..1] == ["first_tool"] && kinds[..2] == ["first_tool", "first_tool#2"] && kinds[..3] == kinds;
    assert kinds[..3][..2] == kinds[..2] && kinds[..2][..1] == kinds[..1] && kinds[..1][..0] == [];
    assert Count(kinds[..1], "first_tool") == 1 && Count(kinds[..2], "first_tool") == 1;
    assert Count(kinds[..1], "first_tool#2") == 0 && Count(kinds[..2], "first_tool#2") == 1;
    assert Count(kinds[..3], "first_tool") == 2;
    assert Decimal(2) == "2";
    assert KeyAt(kinds, 1) == "first_tool#2" == KeyAt(kinds, 2) && KeyAt(kinds, 0) == "first_tool";
  }
}
