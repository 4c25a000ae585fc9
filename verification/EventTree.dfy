/** Walking a tolerant JSON event stream: text, token usage, tool calls and errors. */
module EventTree {
  import opened JsonValues
  import opened Text
  import Scanner

  type Fields = seq<Field>

  datatype Call = Call(seq_: nat, name: string, args: Fields, isError: bool, errorCode: Option<string>,
                       preview: string, rawName: string)

  datatype StreamError = StreamError(kind: string, message: string, status: Option<int>)

  /** One `tools["server"].tool(` found in a piece of code; `open` is the place of its parenthesis. */
  datatype Match = Match(server: string, tool: string, open: nat)

  /** What the walk takes from elsewhere: Python's `str` and `json.dumps`, the call pattern, the argument
    * parser, the gate layer's error codes; and the two configured name lists. */
  datatype Env = Env(show: Json -> string, dump: Json -> string, matches: string -> seq<Match>,
                     parseArgs: string -> Fields, errorCode: string -> Option<string>,
                     serverKeys: seq<string>, prefixes: seq<string>)

  const PREVIEW: nat := 500

  // ---------- dict access ----------

  function Get(f: Fields, key: string): Json {
    if f == [] then Null else if f[0].key == key then f[0].value else Get(f[1..], key)
  }

  predicate Has(f: Fields, key: string) { exists i | 0 <= i < |f| :: f[i].key == key }

  predicate Truthy(j: Json) {
    match j
    case Null => false
    case Bool(b) => b
    case Int(i) => i != 0
    case Float(x) => x != 0.0
    case Str(s) => s != ""
    case Arr(items) => items != []
    case Obj(fields) => fields != []
  }

  /** `str(node.get(key, "")).lower()`. */
  function LowerText(env: Env, f: Fields, key: string): string {
    Lower(if Has(f, key) then Shown(env, Get(f, key)) else "")
  }

  function Cut(s: string): string { if |s| <= PREVIEW then s else s[..PREVIEW] }

  // ---------- what one dict node contributes ----------

  const BAD_PARTS: seq<string> := ["error", "step", "tool", "reasoning", "file", "display"]

  predicate IsTextPart(env: Env, f: Fields) {
    && (forall bad | bad in BAD_PARTS :: !Contains(LowerText(env, f, "type"), bad))
    && Get(f, "text").Str?
  }

  predicate Named(j: Json) { j.Str? && j.s != "" }

  predicate IsToolPart(env: Env, f: Fields) {
    && Contains(LowerText(env, f, "type"), "tool")
    && (Named(Get(f, "name")) || Named(Get(f, "tool")) || Named(Get(f, "title")))
  }

  function ToolName(f: Fields): string {
    if Named(Get(f, "name")) then Get(f, "name").s
    else if Named(Get(f, "tool")) then Get(f, "tool").s
    else if Named(Get(f, "title")) then Get(f, "title").s else ""
  }

  function StateOf(f: Fields): Fields { if Get(f, "state").Obj? then Get(f, "state").fields else [] }

  predicate FullDict(j: Json) { j.Obj? && j.fields != [] }

  function ToolArgs(f: Fields): Fields {
    var s := StateOf(f);
    if FullDict(Get(s, "input")) then Get(s, "input").fields
    else if FullDict(Get(f, "input")) then Get(f, "input").fields
    else if FullDict(Get(f, "args")) then Get(f, "args").fields
    else if FullDict(Get(f, "arguments")) then Get(f, "arguments").fields else []
  }

  predicate IsError(env: Env, f: Fields) {
    var s := StateOf(f);
    || Truthy(Get(s, "error")) || Truthy(Get(s, "is_error")) || Truthy(Get(s, "isError"))
    || LowerText(env, s, "status") in ["error", "failed"]
  }

  function AsText(env: Env, j: Json): string {
    match j
    case Str(s) => s
    case Null => ""
    case Arr(_) => env.dump(j)
    case Obj(_) => env.dump(j)
    case _ => env.show(j)
  }

  function FirstText(env: Env, f: Fields, keys: seq<string>): string {
    if keys == [] then ""
    else if AsText(env, Get(f, keys[0])) != "" then AsText(env, Get(f, keys[0]))
    else FirstText(env, f, keys[1..])
  }

  function ResultText(env: Env, f: Fields): string {
    var first := FirstText(env, StateOf(f), if IsError(env, f) then ["error", "output", "content", "text", "result"]
                                            else ["output", "content", "text", "result", "error"]);
    if first != "" then first else FirstText(env, f, ["output", "result", "content"])
  }

  /** Strips a known server key and its separator, the first that fits; any other name stays as it is. */
  function Normalize(raw: string, keys: seq<string>): string {
    if keys == [] then raw
    else if StartsWith(raw, keys[0] + "_") || StartsWith(raw, keys[0] + ".") then raw[|keys[0]| + 1..]
    else Normalize(raw, keys[1..])
  }

  predicate IsTarget(env: Env, name: string) { exists p | p in env.prefixes :: StartsWith(name, p) }

  const EXECUTE_NAMES: seq<string> := ["execute", "run", "bash"]

  predicate RunsCode(f: Fields) { ToolName(f) in EXECUTE_NAMES && Get(ToolArgs(f), "code").Str? }

  /** The calls found in a piece of code, numbered from `start` before the foreign ones are dropped. */
  function Found(env: Env, code: string, result: string, ms: seq<Match>, start: nat): seq<Call> {
    if ms == [] then []
    else
      var before, m := Found(env, code, result, ms[..|ms| - 1], start), ms[|ms| - 1];
      if env.serverKeys != [] && m.server !in env.serverKeys then before
      else before + [Call(start + |before|, Normalize(m.server + "_" + m.tool, env.serverKeys),
                          env.parseArgs(Scanner.ArgsFrom(code, m.open)), false, None, Cut(result), "")]
  }

  function OnlyTargets(env: Env, calls: seq<Call>): seq<Call> {
    if calls == [] then []
    else OnlyTargets(env, calls[..|calls| - 1]) +
         if IsTarget(env, calls[|calls| - 1].name) then [calls[|calls| - 1]] else []
  }

  function Expand(env: Env, code: string, result: string, start: nat): seq<Call> {
    OnlyTargets(env, Found(env, code, result, env.matches(code), start))
  }

  function Single(env: Env, f: Fields, seq_: nat): Call {
    Call(seq_, Normalize(ToolName(f), env.serverKeys), ToolArgs(f), IsError(env, f),
         if IsError(env, f) then env.errorCode(ResultText(env, f)) else None, Cut(ResultText(env, f)), ToolName(f))
  }

  const USAGE_KEYS: seq<string> := ["usage", "tokens", "cost"]

  const ALIASES: seq<(string, string)> := [
    ("input", "input_tokens"), ("inputTokens", "input_tokens"), ("prompt_tokens", "input_tokens"),
    ("output", "output_tokens"), ("outputTokens", "output_tokens"), ("completion_tokens", "output_tokens"),
    ("totalTokens", "total_tokens"), ("total", "total_tokens")]

  const TOTAL: string := "total_tokens"

  /** A number as Python sees it: booleans count as 0 and 1. */
  function NumberOf(j: Json): Option<real> {
    match j
    case Int(i) => Some(i as real)
    case Float(x) => Some(x)
    case Bool(b) => Some(if b then 1.0 else 0.0)
    case _ => None
  }

  function FromDict(sub: Fields, aliases: seq<(string, string)>): seq<(string, real)> {
    if aliases == [] then []
    else
      var (src, dst) := aliases[|aliases| - 1];
      FromDict(sub, aliases[..|aliases| - 1]) +
      match NumberOf(Get(sub, src)) case Some(v) => [(dst, v)] case None => []
  }

  /** The (counter, value) pairs a node reports, in the order they are read. */
  function Readings(f: Fields, keys: seq<string>): seq<(string, real)> {
    if keys == [] then []
    else Readings(f, keys[..|keys| - 1]) +
         match Get(f, keys[|keys| - 1]) case Obj(sub) => FromDict(sub, ALIASES) case _ => []
  }

  /** Everything one dict node reports. */
  function ReadingsOf(f: Fields): seq<(string, real)> { Readings(f, USAGE_KEYS) }

  function Lookup(usage: map<string, real>, dst: string, default_: real): real {
    if dst in usage then usage[dst] else default_
  }

  function Max(x: real, y: real): real { if x >= y then x else y }

  function Count(usage: map<string, real>, r: (string, real)): map<string, real> {
    usage[r.0 := if r.0 == TOTAL then Max(Lookup(usage, r.0, r.1), r.1) else Lookup(usage, r.0, 0.0) + r.1]
  }

  function CountAll(usage: map<string, real>, rs: seq<(string, real)>): map<string, real> {
    if rs == [] then usage else Count(CountAll(usage, rs[..|rs| - 1]), rs[|rs| - 1])
  }

  /** `str(value)`. */
  function Shown(env: Env, j: Json): string { match j case Str(s) => s case other => env.show(other) }

  function ErrorsOf(env: Env, f: Fields): seq<StreamError> {
    if LowerText(env, f, "type") != "error" then []
    else match Get(f, "error")
      case Obj(err) =>
        var kind, message, status := Get(err, "type"), Get(err, "message"), Get(err, "status");
        [StreamError(if Truthy(kind) then Shown(env, kind) else "unknown",
                     Cut(if Truthy(message) then Shown(env, message) else ""),
                     match status case Int(i) => Some(i) case Bool(b) => Some(if b then 1 else 0) case _ => None)]
      case Str(err) => [StreamError("unknown", Cut(err), None)]
      case _ => []
  }

  function AddErrors(env: Env, found: seq<StreamError>, nodes: seq<Fields>): seq<StreamError> {
    if nodes == [] then found
    else AddErrors(env, found, nodes[..|nodes| - 1]) + ErrorsOf(env, nodes[|nodes| - 1])
  }

  // ---------- the walk as a fold over dict nodes ----------

  /** The dict nodes of a value in pre-order, none of them inside a "metadata" entry. */
  function Nodes(j: Json): seq<Fields>
    decreases j, 1
  {
    match j
    case Obj(fields) => [fields] + FieldNodes(fields)
    case Arr(items) => ItemNodes(items)
    case _ => []
  }

  function FieldNodes(f: Fields): seq<Fields>
    decreases f, 0
  {
    if f == [] then []
    else FieldNodes(f[..|f| - 1]) + VisibleNodes(f[|f| - 1])
  }

  function VisibleNodes(entry: Field): seq<Fields>
    decreases entry, 0
  {
    if entry.key == "metadata" then [] else Nodes(entry.value)
  }

  function ItemNodes(items: seq<Json>): seq<Fields>
    decreases items, 0
  {
    if items == [] then [] else ItemNodes(items[..|items| - 1]) + Nodes(items[|items| - 1])
  }

  datatype Out = Out(texts: seq<string>, usage: map<string, real>, target: seq<Call>, others: seq<Call>)

  /** The calls an execute part expands to; none for any other part. */
  function Expansion(env: Env, f: Fields, start: nat): seq<Call> {
    if RunsCode(f) then Expand(env, Get(ToolArgs(f), "code").s, ResultText(env, f), start) else []
  }

  function AddTool(env: Env, o: Out, f: Fields): Out {
    var expanded := Expansion(env, f, |o.target| + 1);
    if expanded != [] then o.(target := o.target + expanded)
    else
      var call := Single(env, f, |o.target| + |o.others| + 1);
      if IsTarget(env, call.name) then o.(target := o.target + [call]) else o.(others := o.others + [call])
  }

  function NodeStep(env: Env, o: Out, f: Fields): Out {
    var o1 := if IsTextPart(env, f) then o.(texts := o.texts + [Get(f, "text").s]) else o;
    var o2 := if IsToolPart(env, f) then AddTool(env, o1, f) else o1;
    o2.(usage := CountAll(o2.usage, ReadingsOf(f)))
  }

  function Fold(env: Env, o: Out, nodes: seq<Fields>): Out {
    if nodes == [] then o else NodeStep(env, Fold(env, o, nodes[..|nodes| - 1]), nodes[|nodes| - 1])
  }

  lemma {:induction false} FoldAppend(env: Env, o: Out, a: seq<Fields>, b: seq<Fields>)
    ensures Fold(env, o, a + b) == Fold(env, Fold(env, o, a), b)
    decreases |b|
  {
    if b == [] {
      assert a + b == a;
    } else {
      assert (a + b)[..|a + b| - 1] == a + b[..|b| - 1];
      FoldAppend(env, o, a, b[..|b| - 1]);
    }
  }

  lemma {:induction false} CountAppend(usage: map<string, real>, a: seq<(string, real)>, b: seq<(string, real)>)
    ensures CountAll(usage, a + b) == CountAll(CountAll(usage, a), b)
    decreases |b|
  {
    if b == [] {
      assert a + b == a;
    } else {
      assert (a + b)[..|a + b| - 1] == a + b[..|b| - 1];
      CountAppend(usage, a, b[..|b| - 1]);
    }
  }

  lemma {:induction false} ErrorsAppend(env: Env, found: seq<StreamError>, a: seq<Fields>, b: seq<Fields>)
    ensures AddErrors(env, found, a + b) == AddErrors(env, AddErrors(env, found, a), b)
    decreases |b|
  {
    if b == [] {
      assert a + b == a;
    } else {
      assert (a + b)[..|a + b| - 1] == a + b[..|b| - 1];
      ErrorsAppend(env, found, a, b[..|b| - 1]);
    }
  }

  lemma CountReading(usage: map<string, real>, sub: Fields, aliases: seq<(string, string)>, k: nat)
    requires k < |aliases|
    ensures var before := CountAll(usage, FromDict(sub, aliases[..k]));
      CountAll(usage, FromDict(sub, aliases[..k + 1])) ==
        match NumberOf(Get(sub, aliases[k].0)) case Some(v) => Count(before, (aliases[k].1, v)) case None => before
  {
    assert aliases[..k + 1][..k] == aliases[..k];
    var before := FromDict(sub, aliases[..k]);
    match NumberOf(Get(sub, aliases[k].0))
    case None => assert before + [] == before;
    case Some(v) => assert (before + [(aliases[k].1, v)])[..|before|] == before;
  }

  lemma FieldErrorsGrow(env: Env, found: seq<StreamError>, fields: Fields, i: nat)
    requires i < |fields|
    ensures AddErrors(env, found, FieldNodes(fields[..i + 1])) ==
      AddErrors(env, AddErrors(env, found, FieldNodes(fields[..i])), VisibleNodes(fields[i]))
  {
    assert fields[..i + 1][..i] == fields[..i];
    ErrorsAppend(env, found, FieldNodes(fields[..i]), VisibleNodes(fields[i]));
  }

  // ---------- the object ----------

  class Collector {
    const env: Env
    var texts: seq<string>
    var usage: map<string, real>
    var target: seq<Call>
    var others: seq<Call>
    var errors: seq<StreamError>

    ghost function View(): Out
      reads this
    {
      Out(texts, usage, target, others)
    }

    constructor (e: Env)
      ensures env == e && View() == Out([], map[], [], []) && errors == []
    {
      env, texts, usage, target, others, errors := e, [], map[], [], [], [];
    }

    method CollectNode(node: Json)
      modifies this`texts, this`usage, this`target, this`others
      ensures View() == Fold(env, old(View()), Nodes(node))
      decreases node, 1
    {
      match node {
        case Obj(fields) =>
          VisitDict(fields);
          FoldAppend(env, old(View()), [fields], FieldNodes(fields));
          CollectFields(fields);
        case Arr(items) => CollectItems(items);
        case _ =>
      }
    }

    method CollectFields(fields: Fields)
      modifies this`texts, this`usage, this`target, this`others
      ensures View() == Fold(env, old(View()), FieldNodes(fields))
      decreases fields, 0
    {
      for i := 0 to |fields|
        invariant View() == Fold(env, old(View()), FieldNodes(fields[..i]))
      {
        assert fields[..i + 1][..i] == fields[..i];
        FoldAppend(env, old(View()), FieldNodes(fields[..i]), VisibleNodes(fields[i]));
        if fields[i].key == "metadata" { continue; }
        CollectNode(fields[i].value);
      }
      assert fields[..|fields|] == fields;
    }

    method CollectItems(items: seq<Json>)
      modifies this`texts, this`usage, this`target, this`others
      ensures View() == Fold(env, old(View()), ItemNodes(items))
      decreases items, 0
    {
      for i := 0 to |items|
        invariant View() == Fold(env, old(View()), ItemNodes(items[..i]))
      {
        assert items[..i + 1][..i] == items[..i];
        FoldAppend(env, old(View()), ItemNodes(items[..i]), Nodes(items[i]));
        CollectNode(items[i]);
      }
      assert items[..|items|] == items;
    }

    method VisitDict(f: Fields)
      modifies this`texts, this`usage, this`target, this`others
      ensures View() == NodeStep(env, old(View()), f)
    {
      if IsTextPart(env, f) { texts := texts + [Get(f, "text").s]; }
      if IsToolPart(env, f) { VisitTool(f); }
      CountNode(f, USAGE_KEYS);
    }

    method CountNode(f: Fields, keys: seq<string>)
      modifies this`usage
      ensures usage == CountAll(old(usage), Readings(f, keys))
    {
      for k := 0 to |keys|
        invariant usage == CountAll(old(usage), Readings(f, keys[..k]))
      {
        assert keys[..k + 1][..k] == keys[..k];
        match Get(f, keys[k]) {
          case Obj(sub) =>
            CountAppend(old(usage), Readings(f, keys[..k]), FromDict(sub, ALIASES));
            CountDict(sub, ALIASES);
          case _ =>
            assert Readings(f, keys[..k]) + [] == Readings(f, keys[..k]);
        }
      }
      assert keys[..|keys|] == keys;
    }

    method VisitTool(f: Fields)
      modifies this`target, this`others
      ensures View() == AddTool(env, old(View()), f)
    {
      var expanded := [];
      if RunsCode(f) { expanded := ExpandCode(Get(ToolArgs(f), "code").s, ResultText(env, f), |target| + 1); }
      if expanded != [] {
        target := target + expanded;
      } else {
        var call := Single(env, f, |target| + |others| + 1);
        if IsTarget(env, call.name) { target := target + [call]; } else { others := others + [call]; }
      }
    }

    /** `expand_execute_calls`. */
    method ExpandCode(code: string, result: string, start: nat) returns (calls: seq<Call>)
      ensures calls == Expand(env, code, result, start)
    {
      var ms, found := env.matches(code), [];
      for i := 0 to |ms|
        invariant found == Found(env, code, result, ms[..i], start)
      {
        assert ms[..i + 1][..i] == ms[..i];
        var m := ms[i];
        if env.serverKeys != [] && m.server !in env.serverKeys { continue; }
        var raw := Scanner.BalancedArgs(code, m.open);
        found := found + [Call(start + |found|, Normalize(m.server + "_" + m.tool, env.serverKeys),
                               env.parseArgs(raw), false, None, Cut(result), "")];
      }
      assert ms[..|ms|] == ms;
      calls := [];
      for i := 0 to |found|
        invariant calls == OnlyTargets(env, found[..i])
      {
        assert found[..i + 1][..i] == found[..i];
        if IsTarget(env, found[i].name) { calls := calls + [found[i]]; }
      }
      assert found[..|found|] == found;
    }

    method CountOne(dst: string, val: real)
      modifies this`usage
      ensures usage == Count(old(usage), (dst, val))
    {
      if dst == TOTAL {
        usage := usage[dst := Max(Lookup(usage, dst, val), val)];
      } else {
        usage := usage[dst := Lookup(usage, dst, 0.0) + val];
      }
    }

    method CountDict(sub: Fields, aliases: seq<(string, string)>)
      modifies this`usage
      ensures usage == CountAll(old(usage), FromDict(sub, aliases))
    {
      for k := 0 to |aliases|
        invariant usage == CountAll(old(usage), FromDict(sub, aliases[..k]))
      {
        CountReading(old(usage), sub, aliases, k);
        var (src, dst) := aliases[k];
        var val := NumberOf(Get(sub, src));
        if val.Some? { CountOne(dst, val.value); }
      }
      assert aliases[..|aliases|] == aliases;
    }

    /** `_collect_error`, a walk of its own over the same nodes. */
    method CollectError(node: Json)
      modifies this`errors
      ensures errors == AddErrors(env, old(errors), Nodes(node))
      decreases node, 1
    {
      match node {
        case Obj(fields) =>
          errors := errors + ErrorsOf(env, fields);
          ErrorsAppend(env, old(errors), [fields], FieldNodes(fields));
          CollectFieldErrors(fields);
        case Arr(items) => CollectItemErrors(items);
        case _ =>
      }
    }

    method CollectFieldErrors(fields: Fields)
      modifies this`errors
      ensures errors == AddErrors(env, old(errors), FieldNodes(fields))
      decreases fields, 0
    {
      ghost var was := errors;
      for i := 0 to |fields|
        invariant errors == AddErrors(env, was, FieldNodes(fields[..i]))
      {
        FieldErrorsGrow(env, was, fields, i);
        if fields[i].key == "metadata" { continue; }
        CollectError(fields[i].value);
      }
      assert fields[..|fields|] == fields;
    }

    method CollectItemErrors(items: seq<Json>)
      modifies this`errors
      ensures errors == AddErrors(env, old(errors), ItemNodes(items))
      decreases items, 0
    {
      for i := 0 to |items|
        invariant errors == AddErrors(env, old(errors), ItemNodes(items[..i]))
      {
        assert items[..i + 1][..i] == items[..i];
        ErrorsAppend(env, old(errors), ItemNodes(items[..i]), Nodes(items[i]));
        CollectError(items[i]);
      }
      assert items[..|items|] == items;
    }
  }
}
