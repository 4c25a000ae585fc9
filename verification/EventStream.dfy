/** What a parsed event stream amounts to: independent descriptions of the walk's results. */
module EventStream {
  import opened EventTree
  import opened JsonValues
  import opened Text

  // ---------- which nodes are visited ----------

  datatype Selector = Key(i: nat) | Index(i: nat)

  /** `path` leads from `j` to the dict `f` without entering a "metadata" entry. */
  predicate Leads(j: Json, path: seq<Selector>, f: Fields)
    decreases |path|
  {
    if path == [] then j == Obj(f)
    else match path[0]
      case Key(i) =>
        j.Obj? && i < |j.fields| && j.fields[i].key != "metadata" && Leads(j.fields[i].value, path[1..], f)
      case Index(i) => j.Arr? && i < |j.items| && Leads(j.items[i], path[1..], f)
  }

  predicate Below(fs: Fields, i: nat, f: Fields)
    requires i < |fs|
  {
    fs[i].key != "metadata" && f in Nodes(fs[i].value)
  }

  lemma {:induction false} InFieldNodes(fs: Fields, f: Fields)
    ensures f in FieldNodes(fs) <==> exists i: nat | i < |fs| :: Below(fs, i, f)
  {
    if fs != [] {
      var init, n := fs[..|fs| - 1], |fs| - 1;
      InFieldNodes(init, f);
      assert forall i: nat | i < n :: Below(init, i, f) == Below(fs, i, f);
      assert f in FieldNodes(fs) <==> f in FieldNodes(init) || Below(fs, n, f);
    }
  }

  lemma {:induction false} InItemNodes(items: seq<Json>, f: Fields)
    ensures f in ItemNodes(items) <==> exists i | 0 <= i < |items| :: f in Nodes(items[i])
  {
    if items != [] { InItemNodes(items[..|items| - 1], f); }
  }

  lemma {:induction false} PathLeadsToNode(j: Json, path: seq<Selector>, f: Fields)
    requires Leads(j, path, f)
    ensures f in Nodes(j)
    decreases |path|
  {
    if path != [] {
      match path[0]
      case Key(i) =>
        PathLeadsToNode(j.fields[i].value, path[1..], f);
        assert Below(j.fields, i, f);
        InFieldNodes(j.fields, f);
      case Index(i) =>
        PathLeadsToNode(j.items[i], path[1..], f);
        InItemNodes(j.items, f);
    }
  }

  lemma {:induction false} NodeHasPath(j: Json, f: Fields) returns (path: seq<Selector>)
    requires f in Nodes(j)
    ensures Leads(j, path, f)
    decreases j
  {
    match j
    case Obj(fields) =>
      if f == fields { return []; }
      InFieldNodes(fields, f);
      var i: nat :| i < |fields| && Below(fields, i, f);
      path := NodeHasPath(fields[i].value, f);
      path := [Key(i)] + path;
    case Arr(items) =>
      InItemNodes(items, f);
      var i :| 0 <= i < |items| && f in Nodes(items[i]);
      path := NodeHasPath(items[i], f);
      path := [Index(i)] + path;
  }

  ghost predicate Reachable(j: Json, f: Fields) { exists path: seq<Selector> :: Leads(j, path, f) }

  /** The walk visits a dict if and only if a path that never enters "metadata" leads to it. */
  lemma VisitedExactly(j: Json, f: Fields)
    ensures f in Nodes(j) <==> Reachable(j, f)
  {
    if Reachable(j, f) {
      var path :| Leads(j, path, f);
      PathLeadsToNode(j, path, f);
    }
    if f in Nodes(j) { var path := NodeHasPath(j, f); }
  }

  // ---------- flattening ----------

  function Flat<T, U>(g: T -> seq<U>, s: seq<T>): seq<U> {
    if s == [] then [] else Flat(g, s[..|s| - 1]) + g(s[|s| - 1])
  }

  lemma {:induction false} FlatAppend<T, U>(g: T -> seq<U>, a: seq<T>, b: seq<T>)
    ensures Flat(g, a + b) == Flat(g, a) + Flat(g, b)
    decreases |b|
  {
    if b == [] {
      assert a + b == a;
    } else {
      assert (a + b)[..|a + b| - 1] == a + b[..|b| - 1];
      FlatAppend(g, a, b[..|b| - 1]);
    }
  }

  lemma FlatOne<T, U>(g: T -> seq<U>, x: T)
    ensures Flat(g, [x]) == g(x)
  {
    assert [x][..0] == [];
  }

  /** Taking one element out. */
  lemma SplitOff<T>(s: seq<T>, k: nat)
    requires k < |s|
    ensures multiset(s) == multiset(s[..k] + s[k + 1..]) + multiset{s[k]}
  {
    assert s == s[..k] + ([s[k]] + s[k + 1..]);
  }

  lemma FlatSplit<T, U>(g: T -> seq<U>, s: seq<T>, k: nat)
    requires k < |s|
    ensures multiset(Flat(g, s)) == multiset(Flat(g, s[..k] + s[k + 1..])) + multiset(g(s[k]))
  {
    var a, b := s[..k], s[k + 1..];
    assert s == a + ([s[k]] + b);
    FlatAppend(g, a, [s[k]] + b);
    FlatAppend(g, [s[k]], b);
    FlatOne(g, s[k]);
    FlatAppend(g, a, b);
  }

  lemma Cancel<T>(a: multiset<T>, b: multiset<T>, x: T)
    requires a + multiset{x} == b + multiset{x}
    ensures a == b
  {
    forall y ensures a[y] == b[y] {
      assert (a + multiset{x})[y] == (b + multiset{x})[y];
    }
  }

  lemma {:induction false} FlatPermutes<T, U>(g: T -> seq<U>, a: seq<T>, b: seq<T>)
    requires multiset(a) == multiset(b)
    ensures multiset(Flat(g, a)) == multiset(Flat(g, b))
    decreases |a|
  {
    if a == [] {
      assert |multiset(b)| == 0;
    } else {
      var x := a[|a| - 1];
      assert x in multiset(a) && x in b;
      var k :| 0 <= k < |b| && b[k] == x;
      FlatSplit(g, a, |a| - 1);
      FlatSplit(g, b, k);
      SplitOff(a, |a| - 1);
      SplitOff(b, k);
      assert a[..|a| - 1] + a[|a|..] == a[..|a| - 1];
      Cancel(multiset(a[..|a| - 1]), multiset(b[..k] + b[k + 1..]), x);
      FlatPermutes(g, a[..|a| - 1], b[..k] + b[k + 1..]);
    }
  }

  // ---------- text ----------

  function TextOf(env: Env, f: Fields): seq<string> { if IsTextPart(env, f) then [Get(f, "text").s] else [] }

  function Concat(parts: seq<string>): string {
    if parts == [] then "" else Concat(parts[..|parts| - 1]) + parts[|parts| - 1]
  }

  function TextParts(env: Env, nodes: seq<Fields>): seq<string> {
    if nodes == [] then [] else TextParts(env, nodes[..|nodes| - 1]) + TextOf(env, nodes[|nodes| - 1])
  }

  lemma {:induction false} FoldTexts(env: Env, o: Out, nodes: seq<Fields>)
    ensures Fold(env, o, nodes).texts == o.texts + TextParts(env, nodes)
  {
    if nodes != [] {
      FoldTexts(env, o, nodes[..|nodes| - 1]);
      var before := Fold(env, o, nodes[..|nodes| - 1]);
      StepTexts(env, before, nodes[|nodes| - 1]);
    }
  }

  lemma StepTexts(env: Env, o: Out, f: Fields)
    ensures NodeStep(env, o, f).texts == o.texts + TextOf(env, f)
  {}

  // ---------- usage ----------

  lemma StepUsage(env: Env, o: Out, f: Fields)
    ensures NodeStep(env, o, f).usage == CountAll(o.usage, ReadingsOf(f))
  {}

  lemma {:induction false} FoldUsage(env: Env, o: Out, nodes: seq<Fields>)
    ensures Fold(env, o, nodes).usage == CountAll(o.usage, Flat(ReadingsOf, nodes))
  {
    if nodes != [] {
      var n := |nodes| - 1;
      FoldUsage(env, o, nodes[..n]);
      StepUsage(env, Fold(env, o, nodes[..n]), nodes[n]);
      CountAppend(o.usage, Flat(ReadingsOf, nodes[..n]), ReadingsOf(nodes[n]));
    }
  }

  /** The values read for one counter. */
  function Values(rs: seq<(string, real)>, dst: string): seq<real> {
    if rs == [] then []
    else Values(rs[..|rs| - 1], dst) + if rs[|rs| - 1].0 == dst then [rs[|rs| - 1].1] else []
  }

  function Sum(vs: seq<real>): real { if vs == [] then 0.0 else Sum(vs[..|vs| - 1]) + vs[|vs| - 1] }

  predicate IsMax(vs: seq<real>, m: real) { m in vs && forall v | v in vs :: v <= m }

  /** What one counter must be: absent when never read, the largest value for the total, the sum otherwise. */
  predicate CounterExact(usage: map<string, real>, rs: seq<(string, real)>, dst: string) {
    var vs := Values(rs, dst);
    && (dst in usage <==> vs != [])
    && (dst in usage ==> if dst == TOTAL then IsMax(vs, usage[dst]) else usage[dst] == Sum(vs))
  }

  lemma {:induction false} CountAllExact(rs: seq<(string, real)>, dst: string)
    ensures CounterExact(CountAll(map[], rs), rs, dst)
  {
    if rs != [] {
      var init, r := rs[..|rs| - 1], rs[|rs| - 1];
      CountAllExact(init, dst);
      if r.0 == dst {
        var vs := Values(init, dst);
        assert Values(rs, dst) == vs + [r.1];
        assert (vs + [r.1])[..|vs|] == vs && (vs + [r.1])[|vs|] == r.1;
        assert Sum(vs + [r.1]) == Sum(vs) + r.1;
        assert forall v :: v in vs + [r.1] <==> v in vs || v == r.1;
      } else {
        assert Values(rs, dst) == Values(init, dst);
      }
    }
  }

  lemma ValuesPermute(a: seq<(string, real)>, b: seq<(string, real)>, dst: string)
    requires multiset(a) == multiset(b)
    ensures multiset(Values(a, dst)) == multiset(Values(b, dst))
  {
    var g := (r: (string, real)) => if r.0 == dst then [r.1] else [];
    ValuesAreFlat(a, dst, g);
    ValuesAreFlat(b, dst, g);
    FlatPermutes(g, a, b);
  }

  lemma {:induction false} ValuesAreFlat(rs: seq<(string, real)>, dst: string, g: ((string, real)) -> seq<real>)
    requires forall r :: g(r) == if r.0 == dst then [r.1] else []
    ensures Values(rs, dst) == Flat(g, rs)
  {
    if rs != [] { ValuesAreFlat(rs[..|rs| - 1], dst, g); }
  }

  lemma {:induction false} SumAppend(a: seq<real>, b: seq<real>)
    ensures Sum(a + b) == Sum(a) + Sum(b)
    decreases |b|
  {
    if b == [] {
      assert a + b == a;
    } else {
      assert (a + b)[..|a + b| - 1] == a + b[..|b| - 1];
      SumAppend(a, b[..|b| - 1]);
    }
  }

  lemma {:induction false} SumPermutes(a: seq<real>, b: seq<real>)
    requires multiset(a) == multiset(b)
    ensures Sum(a) == Sum(b)
    decreases |a|
  {
    if a == [] {
      assert |multiset(b)| == 0;
    } else {
      var n, x := |a| - 1, a[|a| - 1];
      assert x in multiset(a) && x in b;
      var k :| 0 <= k < |b| && b[k] == x;
      assert a == a[..n] + [x] && b == b[..k] + ([x] + b[k + 1..]);
      Cancel(multiset(a[..n]), multiset(b[..k] + b[k + 1..]), x);
      SumPermutes(a[..n], b[..k] + b[k + 1..]);
      SumAppend(b[..k], [x] + b[k + 1..]);
      SumAppend([x], b[k + 1..]);
      SumAppend(b[..k], b[k + 1..]);
      assert [x][..0] == [];
    }
  }

  lemma SameValuesSameCounter(u: map<string, real>, a: seq<(string, real)>, v: map<string, real>,
                              b: seq<(string, real)>, dst: string)
    requires CounterExact(u, a, dst) && CounterExact(v, b, dst)
    requires multiset(Values(a, dst)) == multiset(Values(b, dst))
    ensures (dst in u <==> dst in v) && (dst in u ==> u[dst] == v[dst])
  {
    var va, vb := Values(a, dst), Values(b, dst);
    SumPermutes(va, vb);
    assert |multiset(va)| == |va| && |multiset(vb)| == |vb|;
    assert forall x :: (x in va <==> x in multiset(va)) && (x in vb <==> x in multiset(vb));
  }

  function UsageOf(objects: seq<Json>): map<string, real> { CountAll(map[], Flat(ReadingsOf, ItemNodes(objects))) }

  function EventReadings(j: Json): seq<(string, real)> { Flat(ReadingsOf, Nodes(j)) }

  lemma {:induction false} ReadingsPerEvent(objects: seq<Json>)
    ensures Flat(ReadingsOf, ItemNodes(objects)) == Flat(EventReadings, objects)
  {
    if objects != [] {
      var n := |objects| - 1;
      ReadingsPerEvent(objects[..n]);
      FlatAppend(ReadingsOf, ItemNodes(objects[..n]), Nodes(objects[n]));
    }
  }

  /** The usage of a stream does not depend on the order of its events. */
  lemma UsageIgnoresOrder(a: seq<Json>, b: seq<Json>)
    requires multiset(a) == multiset(b)
    ensures UsageOf(a) == UsageOf(b)
  {
    var ra, rb := Flat(ReadingsOf, ItemNodes(a)), Flat(ReadingsOf, ItemNodes(b));
    ReadingsPerEvent(a);
    ReadingsPerEvent(b);
    FlatPermutes(EventReadings, a, b);
    var ua, ub := UsageOf(a), UsageOf(b);
    forall dst ensures (dst in ua <==> dst in ub) && (dst in ua ==> ua[dst] == ub[dst]) {
      CountAllExact(ra, dst);
      CountAllExact(rb, dst);
      ValuesPermute(ra, rb, dst);
      SameValuesSameCounter(ua, ra, ub, rb, dst);
    }
    assert ua == ub;
  }

  /** And every counter is what its readings, over the nodes outside "metadata", say. */
  lemma UsageExact(objects: seq<Json>, dst: string)
    ensures CounterExact(UsageOf(objects), Flat(ReadingsOf, ItemNodes(objects)), dst)
  {
    CountAllExact(Flat(ReadingsOf, ItemNodes(objects)), dst);
  }

  function Merged(u: map<string, real>, v: map<string, real>): map<string, real> {
    map dst | dst in u.Keys + v.Keys ::
      if dst !in u then v[dst] else if dst !in v then u[dst]
      else if dst == TOTAL then Max(u[dst], v[dst]) else u[dst] + v[dst]
  }

  lemma {:induction false} ValuesAppend(a: seq<(string, real)>, b: seq<(string, real)>, dst: string)
    ensures Values(a + b, dst) == Values(a, dst) + Values(b, dst)
    decreases |b|
  {
    if b == [] {
      assert a + b == a;
    } else {
      assert (a + b)[..|a + b| - 1] == a + b[..|b| - 1];
      ValuesAppend(a, b[..|b| - 1], dst);
    }
  }

  /** The usage of two streams one after the other is their usages added, totals compared. */
  lemma UsageComposes(a: seq<Json>, b: seq<Json>)
    ensures UsageOf(a + b) == Merged(UsageOf(a), UsageOf(b))
  {
    var ra, rb := Flat(ReadingsOf, ItemNodes(a)), Flat(ReadingsOf, ItemNodes(b));
    var rc := Flat(ReadingsOf, ItemNodes(a + b));
    ReadingsPerEvent(a);
    ReadingsPerEvent(b);
    ReadingsPerEvent(a + b);
    FlatAppend(EventReadings, a, b);
    var u, v, w := UsageOf(a), UsageOf(b), UsageOf(a + b);
    assert rc == ra + rb;
    forall dst
      ensures dst in w <==> dst in Merged(u, v)
      ensures dst in w ==> w[dst] == Merged(u, v)[dst]
    {
      ComposedCounter(ra, rb, dst);
    }
    assert w == Merged(u, v);
  }

  lemma ComposedCounter(ra: seq<(string, real)>, rb: seq<(string, real)>, dst: string)
    ensures var u, v, w := CountAll(map[], ra), CountAll(map[], rb), CountAll(map[], ra + rb);
      && (dst in w <==> dst in Merged(u, v)) && (dst in w ==> w[dst] == Merged(u, v)[dst])
  {
    CountAllExact(ra, dst);
    CountAllExact(rb, dst);
    CountAllExact(ra + rb, dst);
    ValuesAppend(ra, rb, dst);
    MergedCounter(Values(ra, dst), Values(rb, dst));
  }

  lemma MergedCounter(a: seq<real>, b: seq<real>)
    ensures Sum(a + b) == Sum(a) + Sum(b)
    ensures forall x, y, z | IsMax(a, x) && IsMax(b, y) && IsMax(a + b, z) :: z == Max(x, y)
    ensures a == [] ==> a + b == b
    ensures b == [] ==> a + b == a
  {
    SumAppend(a, b);
    forall x, y, z | IsMax(a, x) && IsMax(b, y) && IsMax(a + b, z) ensures z == Max(x, y) {
      assert z in a || z in b;
      assert x in a + b && y in a + b;
    }
  }

  // ---------- tool calls ----------

  predicate Fits(raw: string, key: string) { StartsWith(raw, key + "_") || StartsWith(raw, key + ".") }

  /** Both naming schemes of the client are undone: the server key goes, with either separator, and the rest
    * of the name stays whole however many separators it holds itself; no other name is cut. */
  lemma {:induction false} NormalizeStripsKey(raw: string, keys: seq<string>, i: nat)
    requires i <= |keys| && forall j | 0 <= j < i :: !Fits(raw, keys[j])
    ensures i == |keys| ==> Normalize(raw, keys) == raw
    ensures i < |keys| ==> forall rest ::
      raw == keys[i] + "_" + rest || raw == keys[i] + "." + rest ==> Normalize(raw, keys) == rest
    decreases |keys|
  {
    if i > 0 {
      assert !Fits(raw, keys[0]) && forall j | 0 <= j < i - 1 :: keys[1..][j] == keys[j + 1];
      NormalizeStripsKey(raw, keys[1..], i - 1);
    } else if keys != [] {
      var key := keys[0];
      forall rest | raw == key + "_" + rest || raw == key + "." + rest ensures Normalize(raw, keys) == rest {
        assert raw[..|key| + 1] == if raw == key + "_" + rest then key + "_" else key + ".";
        assert raw[|key| + 1..] == rest;
      }
    }
  }

  /** A call without its number. */
  function Bare(c: Call): Call { c.(seq_ := 0) }

  function BareAll(calls: seq<Call>): seq<Call> { seq(|calls|, i requires 0 <= i < |calls| => Bare(calls[i])) }

  function Expanded(env: Env, f: Fields): seq<Call> { BareAll(Expansion(env, f, 0)) }

  /** The target calls a tool part contributes. */
  function PartTargets(env: Env, f: Fields): seq<Call> {
    if Expanded(env, f) != [] then Expanded(env, f)
    else if IsTarget(env, Single(env, f, 0).name) then [Single(env, f, 0)] else []
  }

  /** The diagnostic calls a tool part contributes. */
  function PartOthers(env: Env, f: Fields): seq<Call> {
    if Expanded(env, f) == [] && !IsTarget(env, Single(env, f, 0).name) then [Single(env, f, 0)] else []
  }

  function TargetsOf(env: Env, f: Fields): seq<Call> { if IsToolPart(env, f) then PartTargets(env, f) else [] }

  function OthersOf(env: Env, f: Fields): seq<Call> { if IsToolPart(env, f) then PartOthers(env, f) else [] }

  function AllTargets(env: Env, nodes: seq<Fields>): seq<Call> {
    if nodes == [] then [] else AllTargets(env, nodes[..|nodes| - 1]) + TargetsOf(env, nodes[|nodes| - 1])
  }

  function AllOthers(env: Env, nodes: seq<Fields>): seq<Call> {
    if nodes == [] then [] else AllOthers(env, nodes[..|nodes| - 1]) + OthersOf(env, nodes[|nodes| - 1])
  }

  lemma BareAppend(a: seq<Call>, b: seq<Call>)
    ensures BareAll(a + b) == BareAll(a) + BareAll(b)
  {}

  lemma BareOne(c: Call)
    ensures BareAll([c]) == [Bare(c)]
  {}

  lemma {:induction false} FoundNumbers(env: Env, code: string, result: string, ms: seq<Match>, a: nat, b: nat)
    ensures BareAll(Found(env, code, result, ms, a)) == BareAll(Found(env, code, result, ms, b))
  {
    if ms != [] {
      var init, m := ms[..|ms| - 1], ms[|ms| - 1];
      FoundNumbers(env, code, result, init, a, b);
      var fa, fb := Found(env, code, result, init, a), Found(env, code, result, init, b);
      if env.serverKeys == [] || m.server in env.serverKeys {
        var c := Call(0, Normalize(m.server + "_" + m.tool, env.serverKeys),
                      env.parseArgs(Scanner.ArgsFrom(code, m.open)), false, None, Cut(result), "");
        assert Found(env, code, result, ms, a) == fa + [c.(seq_ := a + |fa|)];
        assert Found(env, code, result, ms, b) == fb + [c.(seq_ := b + |fb|)];
        BareAppend(fa, [c.(seq_ := a + |fa|)]);
        BareAppend(fb, [c.(seq_ := b + |fb|)]);
      }
    }
  }

  lemma {:induction false} TargetsNumbers(env: Env, a: seq<Call>, b: seq<Call>)
    requires BareAll(a) == BareAll(b)
    ensures BareAll(OnlyTargets(env, a)) == BareAll(OnlyTargets(env, b))
  {
    assert |BareAll(a)| == |a| && |BareAll(b)| == |b|;
    if a != [] {
      var n := |a| - 1;
      assert BareAll(a)[n] == Bare(a[n]) && BareAll(b)[n] == Bare(b[n]);
      assert a[n].name == Bare(a[n]).name == Bare(b[n]).name == b[n].name;
      assert BareAll(a[..n]) == BareAll(a)[..n] == BareAll(b)[..n] == BareAll(b[..n]);
      TargetsNumbers(env, a[..n], b[..n]);
      OneMoreTarget(env, a);
      OneMoreTarget(env, b);
    }
  }

  lemma OneMoreTarget(env: Env, calls: seq<Call>)
    requires calls != []
    ensures var n := |calls| - 1;
      BareAll(OnlyTargets(env, calls)) ==
        BareAll(OnlyTargets(env, calls[..n])) + if IsTarget(env, calls[n].name) then [Bare(calls[n])] else []
  {
    var n := |calls| - 1;
    BareAppend(OnlyTargets(env, calls[..n]), if IsTarget(env, calls[n].name) then [calls[n]] else []);
    BareOne(calls[n]);
  }

  lemma {:induction false} OnlyTargetsAreTargets(env: Env, calls: seq<Call>)
    ensures forall c | c in OnlyTargets(env, calls) :: IsTarget(env, c.name)
  {
    if calls != [] { OnlyTargetsAreTargets(env, calls[..|calls| - 1]); }
  }

  /** Expanding from any start number finds the same calls, all of them targets. */
  lemma ExpansionNumbers(env: Env, f: Fields, start: nat)
    ensures BareAll(Expansion(env, f, start)) == Expanded(env, f)
    ensures forall c | c in Expanded(env, f) :: IsTarget(env, c.name)
  {
    if RunsCode(f) {
      var code, result := Get(ToolArgs(f), "code").s, ResultText(env, f);
      var ms := env.matches(code);
      FoundNumbers(env, code, result, ms, start, 0);
      TargetsNumbers(env, Found(env, code, result, ms, start), Found(env, code, result, ms, 0));
      OnlyTargetsAreTargets(env, Found(env, code, result, ms, 0));
    }
  }

  lemma PartCalls(env: Env, o: Out, f: Fields)
    ensures BareAll(AddTool(env, o, f).target) == BareAll(o.target) + PartTargets(env, f)
    ensures BareAll(AddTool(env, o, f).others) == BareAll(o.others) + PartOthers(env, f)
  {
    var expanded, call := Expansion(env, f, |o.target| + 1), Single(env, f, |o.target| + |o.others| + 1);
    ExpansionNumbers(env, f, |o.target| + 1);
    assert |BareAll(expanded)| == |expanded|;
    BareAppend(o.target, expanded);
    BareAppend(o.target, [call]);
    BareAppend(o.others, [call]);
    BareOne(call);
  }

  lemma StepCalls(env: Env, o: Out, f: Fields)
    ensures BareAll(NodeStep(env, o, f).target) == BareAll(o.target) + TargetsOf(env, f)
    ensures BareAll(NodeStep(env, o, f).others) == BareAll(o.others) + OthersOf(env, f)
  {
    var o1 := if IsTextPart(env, f) then o.(texts := o.texts + [Get(f, "text").s]) else o;
    if IsToolPart(env, f) { PartCalls(env, o1, f); }
  }

  lemma Assoc<T>(x: seq<T>, a: seq<T>, b: seq<T>)
    ensures (x + a) + b == x + (a + b)
  {}

  lemma {:induction false} FoldTargets(env: Env, o: Out, nodes: seq<Fields>)
    ensures BareAll(Fold(env, o, nodes).target) == BareAll(o.target) + AllTargets(env, nodes)
  {
    if nodes != [] {
      var init, f := nodes[..|nodes| - 1], nodes[|nodes| - 1];
      FoldTargets(env, o, init);
      StepCalls(env, Fold(env, o, init), f);
      Assoc(BareAll(o.target), AllTargets(env, init), TargetsOf(env, f));
    }
  }

  lemma {:induction false} FoldOthers(env: Env, o: Out, nodes: seq<Fields>)
    ensures BareAll(Fold(env, o, nodes).others) == BareAll(o.others) + AllOthers(env, nodes)
  {
    if nodes != [] {
      var init, f := nodes[..|nodes| - 1], nodes[|nodes| - 1];
      FoldOthers(env, o, init);
      StepCalls(env, Fold(env, o, init), f);
      Assoc(BareAll(o.others), AllOthers(env, init), OthersOf(env, f));
    }
  }

  /** Every tool part is accounted for once: either it was expanded into target calls, or it is one call
    * in one bucket, the target bucket exactly when its name has a target prefix. */
  lemma EveryToolPartCounted(env: Env, f: Fields)
    ensures !IsToolPart(env, f) ==> TargetsOf(env, f) == [] && OthersOf(env, f) == []
    ensures IsToolPart(env, f) ==>
      (|TargetsOf(env, f)| >= 1 && OthersOf(env, f) == []) || (TargetsOf(env, f) == [] && |OthersOf(env, f)| == 1)
    ensures forall c | c in TargetsOf(env, f) :: IsTarget(env, c.name)
    ensures forall c | c in OthersOf(env, f) :: !IsTarget(env, c.name)
  {
    ExpansionNumbers(env, f, 0);
  }

  /** Diagnostic calls keep the numbers they were given, which only grow. */
  predicate Numbered(calls: seq<Call>) {
    (forall k | 0 <= k < |calls| :: calls[k].seq_ > k) &&
    (forall j, k | 0 <= j < k < |calls| :: calls[j].seq_ < calls[k].seq_)
  }

  predicate NumbersBehind(o: Out) {
    Numbered(o.others) && forall k | 0 <= k < |o.others| :: o.others[k].seq_ <= |o.target| + |o.others|
  }

  lemma PartNumbers(env: Env, o: Out, f: Fields)
    requires NumbersBehind(o)
    ensures NumbersBehind(AddTool(env, o, f))
  {
    assert |AddTool(env, o, f).target| >= |o.target|;
  }

  lemma StepNumbers(env: Env, o: Out, f: Fields)
    requires NumbersBehind(o)
    ensures NumbersBehind(NodeStep(env, o, f))
  {
    var o1 := if IsTextPart(env, f) then o.(texts := o.texts + [Get(f, "text").s]) else o;
    if IsToolPart(env, f) { PartNumbers(env, o1, f); }
  }

  lemma {:induction false} FoldNumbers(env: Env, o: Out, nodes: seq<Fields>)
    requires NumbersBehind(o)
    ensures NumbersBehind(Fold(env, o, nodes))
  {
    if nodes != [] {
      FoldNumbers(env, o, nodes[..|nodes| - 1]);
      StepNumbers(env, Fold(env, o, nodes[..|nodes| - 1]), nodes[|nodes| - 1]);
    }
  }

  lemma WalkFacts(env: Env, nodes: seq<Fields>)
    ensures var o := Fold(env, Out([], map[], [], []), nodes);
      && o.texts == TextParts(env, nodes) && o.usage == CountAll(map[], Flat(ReadingsOf, nodes))
      && BareAll(o.target) == AllTargets(env, nodes) && BareAll(o.others) == AllOthers(env, nodes)
      && Numbered(o.others)
  {
    var empty := Out([], map[], [], []);
    FoldTexts(env, empty, nodes);
    FoldUsage(env, empty, nodes);
    FoldTargets(env, empty, nodes);
    FoldOthers(env, empty, nodes);
    FoldNumbers(env, empty, nodes);
    assert BareAll([]) == [];
  }

  // ---------- the entry point ----------

  datatype ParsedStream = ParsedStream(text: string, usage: map<string, real>, toolCalls: seq<Call>,
                                       otherToolCalls: seq<Call>, errors: seq<StreamError>, objectCount: nat)

  /** `parse_stream` from the parsed objects on: the walk's result is the fold over the visited nodes, with
    * the target calls renumbered from 1. */
  method ParseStream(env: Env, objects: seq<Json>) returns (p: ParsedStream)
    ensures p.text == Concat(TextParts(env, ItemNodes(objects)))
    ensures p.usage == UsageOf(objects)
    ensures BareAll(p.toolCalls) == AllTargets(env, ItemNodes(objects))
    ensures forall i | 0 <= i < |p.toolCalls| :: p.toolCalls[i].seq_ == i + 1
    ensures BareAll(p.otherToolCalls) == AllOthers(env, ItemNodes(objects))
    ensures Numbered(p.otherToolCalls)
    ensures p.errors == AddErrors(env, [], ItemNodes(objects))
    ensures p.objectCount == |objects|
  {
    var c := new Collector(env);
    ghost var empty := c.View();
    for i := 0 to |objects|
      invariant c.env == env && c.View() == Fold(env, empty, ItemNodes(objects[..i]))
      invariant c.errors == AddErrors(env, [], ItemNodes(objects[..i]))
    {
      assert objects[..i + 1][..i] == objects[..i];
      FoldAppend(env, empty, ItemNodes(objects[..i]), Nodes(objects[i]));
      ErrorsAppend(env, [], ItemNodes(objects[..i]), Nodes(objects[i]));
      c.CollectNode(objects[i]);
      c.CollectError(objects[i]);
    }
    assert objects[..|objects|] == objects;
    WalkFacts(env, ItemNodes(objects));
    var text := Join(c.texts);
    var calls := Renumber(c.target);
    p := ParsedStream(text, c.usage, calls, c.others, c.errors, |objects|);
  }

  method Join(parts: seq<string>) returns (text: string)
    ensures text == Concat(parts)
  {
    text := "";
    for i := 0 to |parts|
      invariant text == Concat(parts[..i])
    {
      assert parts[..i + 1][..i] == parts[..i];
      text := text + parts[i];
    }
    assert parts[..|parts|] == parts;
  }

  method Renumber(calls: seq<Call>) returns (r: seq<Call>)
    ensures BareAll(r) == BareAll(calls)
    ensures forall i | 0 <= i < |r| :: r[i].seq_ == i + 1
  {
    r := [];
    for i := 0 to |calls|
      invariant |r| == i && forall k | 0 <= k < i :: r[k] == calls[k].(seq_ := k + 1)
    {
      r := r + [calls[i].(seq_ := i + 1)];
    }
  }
}
