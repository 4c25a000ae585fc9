/** What a single dict node of the event stream reports, entry by entry. */
module EventNodes {
  import opened EventTree
  import opened EventStream
  import opened JsonValues
  import opened Text

  // ---------- token usage ----------

  /** The entry `src` of a usage dict counts towards `dst`. */
  predicate CountsTowards(src: string, dst: string) {
    || (dst == "input_tokens" && src in {"input", "inputTokens", "prompt_tokens"})
    || (dst == "output_tokens" && src in {"output", "outputTokens", "completion_tokens"})
    || (dst == "total_tokens" && src in {"total", "totalTokens"})
  }

  /** The value is a number, booleans counting as 0 and 1. */
  predicate IsNumber(j: Json, v: real) {
    j == Float(v) || (j.Int? && v == j.i as real) || (j.Bool? && v == if j.b then 1.0 else 0.0)
  }

  /** The node's dict `u` has the number `v` under `src`. */
  predicate HasNumber(f: Fields, u: string, src: string, v: real) {
    Get(f, u).Obj? && IsNumber(Get(Get(f, u).fields, src), v)
  }

  predicate Aliased(sub: Fields, alias: (string, string), dst: string, v: real) {
    alias.1 == dst && IsNumber(Get(sub, alias.0), v)
  }

  lemma {:induction false} DictReadings(sub: Fields, aliases: seq<(string, string)>, dst: string, v: real)
    ensures (dst, v) in FromDict(sub, aliases) <==>
      exists k | 0 <= k < |aliases| :: Aliased(sub, aliases[k], dst, v)
  {
    if aliases != [] {
      var n := |aliases| - 1;
      DictReadings(sub, aliases[..n], dst, v);
      assert forall k | 0 <= k < n :: aliases[..n][k] == aliases[k];
      assert Aliased(sub, aliases[n], dst, v) <==> aliases[n].1 == dst && NumberOf(Get(sub, aliases[n].0)) == Some(v);
    }
  }

  lemma AliasesMean(src: string, dst: string)
    ensures (exists k | 0 <= k < |ALIASES| :: ALIASES[k] == (src, dst)) <==> CountsTowards(src, dst)
  {
    assert ALIASES[0] == ("input", "input_tokens") && ALIASES[1] == ("inputTokens", "input_tokens");
    assert ALIASES[2] == ("prompt_tokens", "input_tokens") && ALIASES[3] == ("output", "output_tokens");
    assert ALIASES[4] == ("outputTokens", "output_tokens") && ALIASES[5] == ("completion_tokens", "output_tokens");
    assert ALIASES[6] == ("totalTokens", "total_tokens") && ALIASES[7] == ("total", "total_tokens");
  }

  predicate ReadsAt(f: Fields, key: string, dst: string, v: real) {
    Get(f, key).Obj? && (dst, v) in FromDict(Get(f, key).fields, ALIASES)
  }

  lemma OneMoreKey(f: Fields, keys: seq<string>, dst: string, v: real)
    requires keys != []
    ensures (dst, v) in Readings(f, keys) <==>
      (dst, v) in Readings(f, keys[..|keys| - 1]) || ReadsAt(f, keys[|keys| - 1], dst, v)
  {}

  lemma NodeReadings(f: Fields, dst: string, v: real)
    ensures (dst, v) in ReadingsOf(f) <==>
      ReadsAt(f, "usage", dst, v) || ReadsAt(f, "tokens", dst, v) || ReadsAt(f, "cost", dst, v)
  {
    var keys := USAGE_KEYS;
    OneMoreKey(f, keys, dst, v);
    OneMoreKey(f, keys[..2], dst, v);
    OneMoreKey(f, keys[..2][..1], dst, v);
    assert keys[..2][..1][..0] == [];
  }

  /** One of the three usage dicts has the number `v` under `src`, which counts towards `dst`. */
  predicate Reports(f: Fields, u: string, src: string, dst: string, v: real) {
    (u == "usage" || u == "tokens" || u == "cost") && HasNumber(f, u, src, v) && CountsTowards(src, dst)
  }

  lemma ReportIsRead(f: Fields, u: string, src: string, dst: string, v: real)
    requires Reports(f, u, src, dst, v)
    ensures (dst, v) in ReadingsOf(f)
  {
    var sub := Get(f, u).fields;
    AliasesMean(src, dst);
    var k :| 0 <= k < |ALIASES| && ALIASES[k] == (src, dst);
    assert Aliased(sub, ALIASES[k], dst, v);
    DictReadings(sub, ALIASES, dst, v);
    NodeReadings(f, dst, v);
    assert ReadsAt(f, u, dst, v);
  }

  lemma ReadIsReport(f: Fields, dst: string, v: real) returns (u: string, src: string)
    requires (dst, v) in ReadingsOf(f)
    ensures Reports(f, u, src, dst, v)
  {
    NodeReadings(f, dst, v);
    u := if ReadsAt(f, "usage", dst, v) then "usage" else if ReadsAt(f, "tokens", dst, v) then "tokens" else "cost";
    DictReadings(Get(f, u).fields, ALIASES, dst, v);
    var k :| 0 <= k < |ALIASES| && Aliased(Get(f, u).fields, ALIASES[k], dst, v);
    src := ALIASES[k].0;
    AliasesMean(src, dst);
    assert ALIASES[k] == (src, dst);
  }

  /** A node reports `v` for a counter if and only if one of its three usage dicts has that number under one of
    * the counter's names. */
  lemma UsageReported(f: Fields, dst: string, v: real)
    ensures (dst, v) in ReadingsOf(f) <==> exists u, src :: Reports(f, u, src, dst, v)
  {
    if (dst, v) in ReadingsOf(f) { var u, src := ReadIsReport(f, dst, v); }
    if u, src :| Reports(f, u, src, dst, v) { ReportIsRead(f, u, src, dst, v); }
  }

  /** How many of these entries are numbers. */
  function Numbers(sub: Fields, names: seq<string>): nat {
    if names == [] then 0
    else Numbers(sub, names[..|names| - 1]) +
         match Get(sub, names[|names| - 1]) case Int(_) => 1 case Float(_) => 1 case Bool(_) => 1 case _ => 0
  }

  const NAMES: seq<string> :=
    ["input", "inputTokens", "prompt_tokens", "output", "outputTokens", "completion_tokens", "totalTokens", "total"]

  lemma {:induction false} DictReadsOnce(sub: Fields, aliases: seq<(string, string)>, names: seq<string>)
    requires |names| == |aliases| && forall k | 0 <= k < |names| :: names[k] == aliases[k].0
    ensures |FromDict(sub, aliases)| == Numbers(sub, names)
  {
    if aliases != [] { DictReadsOnce(sub, aliases[..|aliases| - 1], names[..|names| - 1]); }
  }

  function DictNumbers(j: Json): nat { if j.Obj? then Numbers(j.fields, NAMES) else 0 }

  /** And each of these numbers is reported once. */
  lemma UsageReportedOnce(f: Fields)
    ensures |ReadingsOf(f)| ==
      DictNumbers(Get(f, "usage")) + DictNumbers(Get(f, "tokens")) + DictNumbers(Get(f, "cost"))
  {
    var keys := USAGE_KEYS;
    forall j: Json | j.Obj? ensures |FromDict(j.fields, ALIASES)| == DictNumbers(j) {
      DictReadsOnce(j.fields, ALIASES, NAMES);
    }
    assert keys[..2] == ["usage", "tokens"] && keys[..2][..1] == ["usage"] && keys[..2][..1][..0] == [];
    assert |Readings(f, ["usage"])| == DictNumbers(Get(f, "usage"));
    assert |Readings(f, ["usage", "tokens"])| == DictNumbers(Get(f, "usage")) + DictNumbers(Get(f, "tokens"));
  }

  // ---------- texts, tools, errors ----------

  predicate NonEmptyText(j: Json) { j.Str? && j.s != "" }

  predicate NonEmptyDict(j: Json) { j.Obj? && j.fields != [] }

  /** `key` is the first of `keys` whose entry passes the test. */
  ghost predicate FirstOf(f: Fields, keys: seq<string>, good: Json -> bool, key: string) {
    exists k | 0 <= k < |keys| :: keys[k] == key && good(Get(f, key)) && forall i | 0 <= i < k :: !good(Get(f, keys[i]))
  }

  /** A tool part is named by the first of three entries that is a non-empty text. */
  lemma ToolNameOrder(f: Fields, key: string)
    requires FirstOf(f, ["name", "tool", "title"], NonEmptyText, key)
    ensures Get(f, key).Str? && ToolName(f) == Get(f, key).s
  {
    var keys := ["name", "tool", "title"];
    var k :| 0 <= k < |keys| && keys[k] == key && forall i | 0 <= i < k :: !NonEmptyText(Get(f, keys[i]));
    assert k > 0 ==> !NonEmptyText(Get(f, keys[0]));
    assert k > 1 ==> !NonEmptyText(Get(f, keys[1]));
  }

  /** Its arguments are its state's input if that is a non-empty dict, and else the first of three entries of its
    * own that is one. */
  lemma ToolArgsOrder(f: Fields, state: Json)
    requires state == Get(f, "state")
    ensures state.Obj? && NonEmptyDict(Get(state.fields, "input")) ==> ToolArgs(f) == Get(state.fields, "input").fields
    ensures !(state.Obj? && NonEmptyDict(Get(state.fields, "input"))) ==>
      forall key | FirstOf(f, ["input", "args", "arguments"], NonEmptyDict, key) :: ToolArgs(f) == Get(f, key).fields
  {
    if !(state.Obj? && NonEmptyDict(Get(state.fields, "input"))) {
      var keys := ["input", "args", "arguments"];
      forall key | FirstOf(f, keys, NonEmptyDict, key) ensures ToolArgs(f) == Get(f, key).fields {
        var k :| 0 <= k < |keys| && keys[k] == key && NonEmptyDict(Get(f, key))
                 && forall i | 0 <= i < k :: !NonEmptyDict(Get(f, keys[i]));
        assert k > 0 ==> !NonEmptyDict(Get(f, keys[0]));
        assert k > 1 ==> !NonEmptyDict(Get(f, keys[1]));
      }
    }
  }

  lemma GetSecond(f: Fields)
    requires |f| == 3 && f[0].key != f[1].key
    ensures Get(f, f[1].key) == f[1].value
  {}

  lemma GetThird(f: Fields)
    requires |f| == 3 && f[0].key != f[2].key && f[1].key != f[2].key
    ensures Get(f, f[2].key) == f[2].value
  {
    var key := f[2].key;
    assert Get(f, key) == Get(f[1..], key) == Get(f[1..][1..], key);
    assert f[1..][1..] == f[2..] && f[2..][0] == f[2];
  }

  lemma GetOfThree(f: Fields, key: string)
    requires |f| == 3 && forall i | 0 <= i < 3 :: f[i].key != key
    ensures Get(f, key) == Null
  {
    assert Get(f, key) == Get(f[1..], key) == Get(f[1..][1..], key) == Get(f[1..][1..][1..], key);
    assert f[1..][1..][1..] == [];
  }

  /** A finished tool part as the stream writes it. */
  function ToolPart(name: string, status: string, args: Fields, output: string): Fields {
    [Field("type", Str("tool")), Field("tool", Str(name)),
     Field("state", Obj([Field("status", Str(status)), Field("input", Obj(args)), Field("output", Str(output))]))]
  }

  lemma ToolPartEntries(name: string, status: string, args: Fields, output: string)
    ensures var f, s := ToolPart(name, status, args, output), StateOf(ToolPart(name, status, args, output));
      && Get(f, "type") == Str("tool") && Has(f, "type") && Get(f, "tool") == Str(name)
      && (forall key | key !in {"type", "tool", "state"} :: Get(f, key) == Null)
      && Get(s, "status") == Str(status) && Has(s, "status")
      && Get(s, "input") == Obj(args) && Get(s, "output") == Str(output)
      && (forall key | key !in {"status", "input", "output"} :: Get(s, key) == Null)
  {
    var f := ToolPart(name, status, args, output);
    assert f[0].key == "type";
    var s := StateOf(f);
    assert s == Get(f, "state").fields == f[2].value.fields by { GetThird(f); }
    assert s[0].key == "status";
    GetSecond(f);
    GetSecond(s);
    GetThird(s);
    forall key | key !in {"type", "tool", "state"} ensures Get(f, key) == Null { GetOfThree(f, key); }
    forall key | key !in {"status", "input", "output"} ensures Get(s, key) == Null { GetOfThree(s, key); }
  }

  lemma ToolPartIsTool(env: Env, name: string, status: string, args: Fields, output: string)
    requires name != ""
    ensures IsToolPart(env, ToolPart(name, status, args, output))
    ensures !IsTextPart(env, ToolPart(name, status, args, output))
  {
    var f := ToolPart(name, status, args, output);
    ToolPartEntries(name, status, args, output);
    var kind := LowerText(env, f, "type");
    assert kind == Lower("tool") == "tool";
    assert OccursAt(kind, "tool", 0);
    assert BAD_PARTS[2] == "tool";
  }

  lemma ToolPartResult(env: Env, name: string, status: string, args: Fields, output: string)
    requires output != ""
    ensures IsError(env, ToolPart(name, status, args, output)) <==>
      Lower(status) == "error" || Lower(status) == "failed"
    ensures ResultText(env, ToolPart(name, status, args, output)) == output
  {
    var s := StateOf(ToolPart(name, status, args, output));
    ToolPartEntries(name, status, args, output);
    var after := ["output", "content", "text", "result"];
    assert FirstText(env, s, ["output", "content", "text", "result", "error"]) == output;
    assert (["error"] + after)[1..] == after && FirstText(env, s, after) == output;
    assert ["error"] + after == ["error", "output", "content", "text", "result"];
    assert FirstText(env, s, ["error"] + after) == FirstText(env, s, after);
  }

  lemma NoCodeNoExpansion(env: Env, f: Fields)
    requires !(ToolName(f) in {"execute", "run", "bash"} && Get(ToolArgs(f), "code").Str?)
    ensures Expanded(env, f) == []
  {
    assert EXECUTE_NAMES[0] == "execute" && EXECUTE_NAMES[1] == "run" && EXECUTE_NAMES[2] == "bash";
  }

  lemma OneCall(env: Env, f: Fields)
    requires IsToolPart(env, f) && Expanded(env, f) == []
    ensures TargetsOf(env, f) + OthersOf(env, f) == [Single(env, f, 0)]
  {}

  lemma ToolPartNamed(name: string, status: string, args: Fields, output: string)
    requires name != "" && args != []
    ensures ToolName(ToolPart(name, status, args, output)) == name
    ensures ToolArgs(ToolPart(name, status, args, output)) == args
  {
    ToolPartEntries(name, status, args, output);
  }

  /** A tool part that runs no code is one call: the name with its server key taken off, the arguments of its
    * state, an error if and only if its status says so, and the beginning of its output. */
  lemma ToolPartReported(env: Env, name: string, status: string, args: Fields, output: string)
    requires name != "" && args != [] && output != "" && !(name in {"execute", "run", "bash"} && Get(args, "code").Str?)
    ensures var f, error := ToolPart(name, status, args, output), Lower(status) == "error" || Lower(status) == "failed";
      TargetsOf(env, f) + OthersOf(env, f) ==
        [Call(0, Normalize(name, env.serverKeys), args, error, if error then env.errorCode(output) else None,
              if |output| <= 500 then output else output[..500], name)]
  {
    var f := ToolPart(name, status, args, output);
    ToolPartNamed(name, status, args, output);
    ToolPartIsTool(env, name, status, args, output);
    ToolPartResult(env, name, status, args, output);
    NoCodeNoExpansion(env, f);
    OneCall(env, f);
  }

  /** A node is a text part if and only if its text is a string and its type names none of the six kinds whose
    * text is no output; then it contributes that text. */
  lemma TextReported(env: Env, f: Fields)
    ensures var kind := LowerText(env, f, "type");
      TextOf(env, f) ==
        if Get(f, "text").Str? && !Contains(kind, "error") && !Contains(kind, "step") && !Contains(kind, "tool")
          && !Contains(kind, "reasoning") && !Contains(kind, "file") && !Contains(kind, "display")
        then [Get(f, "text").s] else []
  {
    assert BAD_PARTS[0] == "error" && BAD_PARTS[1] == "step" && BAD_PARTS[2] == "tool";
    assert BAD_PARTS[3] == "reasoning" && BAD_PARTS[4] == "file" && BAD_PARTS[5] == "display";
  }

  /** An error event reports its error's type, message and status. */
  lemma ErrorReported(env: Env, kind: string, message: string, status: int)
    requires kind != "" && message != ""
    ensures var error := Obj([Field("type", Str(kind)), Field("message", Str(message)), Field("status", Int(status))]);
      ErrorsOf(env, [Field("type", Str("error")), Field("error", error)]) ==
        [StreamError(kind, if |message| <= 500 then message else message[..500], Some(status))]
  {
    var sub := [Field("type", Str(kind)), Field("message", Str(message)), Field("status", Int(status))];
    var f := [Field("type", Str("error")), Field("error", Obj(sub))];
    assert f[0].key == "type" && LowerText(env, f, "type") == Lower("error") == "error";
    assert Get(f, "error") == Get(f[1..], "error") == Obj(sub);
    GetSecond(sub);
    GetThird(sub);
  }

  /** An error event whose error is plain text reports that. */
  lemma PlainErrorReported(env: Env, text: string)
    ensures ErrorsOf(env, [Field("type", Str("error")), Field("error", Str(text))]) ==
      [StreamError("unknown", if |text| <= 500 then text else text[..500], None)]
  {
    var f := [Field("type", Str("error")), Field("error", Str(text))];
    assert f[0].key == "type" && LowerText(env, f, "type") == Lower("error") == "error";
    assert Get(f, "error") == Get(f[1..], "error") == Str(text);
  }

  /** Python takes the value for true: it is none of the empty ones. */
  predicate IsSet(j: Json) { j !in {Null, Bool(false), Int(0), Float(0.0), Str(""), Arr([]), Obj([])} }

  /** A tool is in error exactly if its state sets one of three flags or has a status that says so. */
  lemma ErrorFlags(env: Env, f: Fields)
    ensures var s, status := StateOf(f), LowerText(env, StateOf(f), "status");
      IsError(env, f) <==>
        || IsSet(Get(s, "error")) || IsSet(Get(s, "is_error")) || IsSet(Get(s, "isError"))
        || status == "error" || status == "failed"
  {
    forall j: Json ensures Truthy(j) <==> IsSet(j) {}
  }

  /** A call is a target call exactly if a configured prefix begins its name. */
  lemma TargetExactly(env: Env, name: string)
    ensures IsTarget(env, name) <==> exists p | p in env.prefixes :: p <= name
  {
    forall p ensures StartsWith(name, p) <==> p <= name {}
  }

  /** `text` is what the first of `keys` with a text says, or empty if none has one. */
  predicate FirstSays(env: Env, f: Fields, keys: seq<string>, text: string) {
    || (text == "" && forall k | 0 <= k < |keys| :: AsText(env, Get(f, keys[k])) == "")
    || (text != "" && exists k | 0 <= k < |keys| :: SaysAt(env, f, keys, text, k))
  }

  predicate SaysAt(env: Env, f: Fields, keys: seq<string>, text: string, k: nat)
    requires k < |keys|
  {
    AsText(env, Get(f, keys[k])) == text && forall i | 0 <= i < k :: AsText(env, Get(f, keys[i])) == ""
  }

  lemma {:induction false} FirstTextSays(env: Env, f: Fields, keys: seq<string>)
    ensures FirstSays(env, f, keys, FirstText(env, f, keys))
  {
    if keys != [] {
      var text, rest := FirstText(env, f, keys), keys[1..];
      if AsText(env, Get(f, keys[0])) != "" {
        assert SaysAt(env, f, keys, text, 0);
      } else {
        FirstTextSays(env, f, rest);
        assert forall i | 0 <= i < |rest| :: rest[i] == keys[i + 1];
        if k: nat :| k < |rest| && SaysAt(env, f, rest, text, k) { assert SaysAt(env, f, keys, text, k + 1); }
        if text == "" {
          forall k | 0 <= k < |keys| ensures AsText(env, Get(f, keys[k])) == "" {
            if k > 0 { assert rest[k - 1] == keys[k]; }
          }
        }
      }
    }
  }

  /** A tool's result is the first text its state says, an error's text before its output and any other's after
    * everything else, and if the state says nothing the first its own entries say. */
  lemma ResultTextOrder(env: Env, f: Fields)
    ensures var s, keys := StateOf(f),
        if IsError(env, f) then ["error", "output", "content", "text", "result"]
        else ["output", "content", "text", "result", "error"];
      || (ResultText(env, f) != "" && FirstSays(env, s, keys, ResultText(env, f)))
      || (FirstSays(env, s, keys, "") && FirstSays(env, f, ["output", "result", "content"], ResultText(env, f)))
  {
    var error := IsError(env, f);
    FirstTextSays(env, StateOf(f), if error then ["error", "output", "content", "text", "result"]
                                   else ["output", "content", "text", "result", "error"]);
    FirstTextSays(env, f, ["output", "result", "content"]);
  }

  /** How a value reads as text: a text is itself, null is nothing, a container is dumped as JSON and anything else
    * shown as Python shows it. */
  lemma ValuesAsText(env: Env, s: string, items: seq<Json>, fields: Fields, n: int)
    ensures AsText(env, Str(s)) == s && AsText(env, Null) == ""
    ensures AsText(env, Arr(items)) == env.dump(Arr(items)) && AsText(env, Obj(fields)) == env.dump(Obj(fields))
    ensures AsText(env, Int(n)) == env.show(Int(n))
  {}

  /** Any type that contains "tool", in any case, makes a named node a tool part. */
  lemma ToolTypes(env: Env, before: string, after: string, name: string)
    requires name != ""
    ensures IsToolPart(env, [Field("type", Str(before + "TOOL" + after)), Field("name", Str(name))])
  {
    var f := [Field("type", Str(before + "TOOL" + after)), Field("name", Str(name))];
    assert f[0].key == "type";
    var kind := LowerText(env, f, "type");
    assert kind == Lower(before + "TOOL" + after);
    assert |kind| == |before| + 4 + |after| && kind[|before|..|before| + 4] == Lower("TOOL") == "tool";
    assert OccursAt(kind, "tool", |before|);
    assert Get(f, "name") == Get(f[1..], "name") == Str(name);
  }

  /** A node without a type is no error, and its text is output, whatever Python shows for a missing entry. */
  lemma UntypedText(env: Env, text: string)
    ensures TextOf(env, [Field("text", Str(text))]) == [text] && ErrorsOf(env, [Field("text", Str(text))]) == []
  {
    var f := [Field("text", Str(text))];
    assert !Has(f, "type") && LowerText(env, f, "type") == "";
    forall bad | bad in BAD_PARTS ensures !Contains("", bad) { assert bad != ""; }
  }

  /** Only an error event reports an error. */
  lemma OnlyErrorsReported(env: Env, f: Fields)
    ensures ErrorsOf(env, f) != [] ==> Has(f, "type") && LowerText(env, f, "type") == "error"
  {}
}
