/** The quote-aware bracket scanner that cuts a call's argument text out of a piece of JavaScript. */
module Scanner {
  import opened Text

  predicate IsQuote(c: char) { c == '"' || c == '\'' || c == '`' }

  predicate IsOpen(c: char) { c == '(' || c == '[' || c == '{' }

  predicate IsClose(c: char) { c == ')' || c == ']' || c == '}' }

  /** Where the scan, standing at `i` inside `depth` brackets and perhaps a string, meets the bracket that
    * brings it to depth zero. */
  function CloseAt(code: string, i: nat, depth: int, quote: Option<char>): (j: Option<nat>)
    ensures j.Some? ==> i <= j.value < |code| && (i == j.value ==> depth == 1)
    decreases |code| - i
  {
    if i >= |code| then None
    else
      var ch := code[i];
      if quote.Some? then
        if ch == '\\' then CloseAt(code, i + 2, depth, quote)
        else CloseAt(code, i + 1, depth, if ch == quote.value then None else quote)
      else if IsQuote(ch) then CloseAt(code, i + 1, depth, Some(ch))
      else if IsOpen(ch) then CloseAt(code, i + 1, depth + 1, None)
      else if IsClose(ch) then if depth == 1 then Some(i) else CloseAt(code, i + 1, depth - 1, None)
      else CloseAt(code, i + 1, depth, None)
  }

  /** The argument text: up to the closing bracket, or all the rest when nothing closes. */
  function ArgsFrom(code: string, openParen: nat): string {
    match CloseAt(code, openParen, 0, None)
    case Some(j) => code[openParen + 1..j]
    case None => if openParen < |code| then code[openParen + 1..] else ""
  }

  // ---------- the texts the scanner understands ----------

  datatype Inside = Done | Char(c: char, more: Inside) | Escaped(c: char, more: Inside)

  /** Plain characters, quoted strings with backslash escapes, and bracket groups whose two brackets need
    * not be of one kind. */
  datatype Args =
    | End
    | Plain(c: char, rest: Args)
    | Quoted(quote: char, inside: Inside, rest: Args)
    | Group(open: char, body: Args, close: char, rest: Args)

  predicate InsideOk(q: char, s: Inside) {
    match s
    case Done => true
    case Char(c, more) => c != q && c != '\\' && InsideOk(q, more)
    case Escaped(_, more) => InsideOk(q, more)
  }

  predicate WellFormed(t: Args) {
    match t
    case End => true
    case Plain(c, rest) => !IsQuote(c) && !IsOpen(c) && !IsClose(c) && WellFormed(rest)
    case Quoted(q, s, rest) => IsQuote(q) && InsideOk(q, s) && WellFormed(rest)
    case Group(o, body, c, rest) => IsOpen(o) && WellFormed(body) && IsClose(c) && WellFormed(rest)
  }

  function RenderInside(s: Inside): string {
    match s
    case Done => ""
    case Char(c, more) => [c] + RenderInside(more)
    case Escaped(c, more) => ['\\', c] + RenderInside(more)
  }

  function Render(t: Args): string {
    match t
    case End => ""
    case Plain(c, rest) => [c] + Render(rest)
    case Quoted(q, s, rest) => [q] + RenderInside(s) + [q] + Render(rest)
    case Group(o, body, c, rest) => [o] + Render(body) + [c] + Render(rest)
  }

  predicate At(code: string, i: nat, part: string) { i + |part| <= |code| && code[i..i + |part|] == part }

  lemma AtSplit(code: string, i: nat, a: string, b: string)
    requires At(code, i, a + b)
    ensures At(code, i, a) && At(code, i + |a|, b)
    ensures a != [] ==> code[i] == a[0]
  {
    assert code[i..i + |a|] == (a + b)[..|a|] == a;
    assert code[i + |a|..i + |a| + |b|] == (a + b)[|a|..] == b;
  }

  /** A text in between two delimiters, and what follows. */
  lemma Delimited(code: string, i: nat, o: char, body: string, c: char, rest: string)
    requires At(code, i, [o] + body + [c] + rest)
    ensures code[i] == o && At(code, i + 1, body) && code[i + 1 + |body|] == c && At(code, i + 2 + |body|, rest)
  {
    assert [o] + body + [c] + rest == [o] + (body + ([c] + rest));
    AtSplit(code, i, [o], body + ([c] + rest));
    AtSplit(code, i + 1, body, [c] + rest);
    AtSplit(code, i + 1 + |body|, [c], rest);
  }

  lemma Slices(code: string, i: nat, m: nat, k: nat)
    requires i < m < k <= |code|
    ensures code[i..k] == [code[i]] + code[i + 1..m] + [code[m]] + code[m + 1..k]
  {}

  // ---------- what is well formed is passed over ----------

  lemma {:induction false} PassInside(code: string, i: nat, depth: int, q: char, s: Inside)
    requires IsQuote(q) && InsideOk(q, s) && At(code, i, RenderInside(s)) && i + |RenderInside(s)| < |code|
    requires code[i + |RenderInside(s)|] == q
    ensures CloseAt(code, i, depth, Some(q)) == CloseAt(code, i + |RenderInside(s)| + 1, depth, None)
    decreases s
  {
    match s
    case Done =>
    case Char(c, more) =>
      AtSplit(code, i, [c], RenderInside(more));
      PassInside(code, i + 1, depth, q, more);
    case Escaped(c, more) =>
      AtSplit(code, i, ['\\', c], RenderInside(more));
      PassInside(code, i + 2, depth, q, more);
  }

  /** A well-formed text is passed over without a trace, at any depth inside a bracket. */
  lemma {:induction false} PassArgs(code: string, i: nat, depth: int, t: Args)
    requires depth >= 1 && WellFormed(t) && At(code, i, Render(t))
    ensures CloseAt(code, i, depth, None) == CloseAt(code, i + |Render(t)|, depth, None)
    decreases t, 1
  {
    if !t.End? {
      var k := PassHead(code, i, depth, t);
      PassArgs(code, k, depth, t.rest);
    }
  }

  lemma PassHead(code: string, i: nat, depth: int, t: Args) returns (k: nat)
    requires depth >= 1 && !t.End? && WellFormed(t) && At(code, i, Render(t))
    ensures WellFormed(t.rest) && At(code, k, Render(t.rest)) && i + |Render(t)| == k + |Render(t.rest)|
    ensures CloseAt(code, i, depth, None) == CloseAt(code, k, depth, None)
    decreases t, 0, 1
  {
    match t
    case Plain(_, _) => PassPlain(code, i, depth, t); k := i + 1;
    case Quoted(_, s, _) => PassQuoted(code, i, depth, t); k := i + 2 + |RenderInside(s)|;
    case Group(_, body, _, _) => PassGroup(code, i, depth, t); k := i + 2 + |Render(body)|;
  }

  lemma PassGroup(code: string, i: nat, depth: int, t: Args)
    requires depth >= 1 && t.Group? && WellFormed(t) && At(code, i, Render(t))
    ensures var k := i + 2 + |Render(t.body)|;
      && At(code, k, Render(t.rest)) && CloseAt(code, i, depth, None) == CloseAt(code, k, depth, None)
      && i + |Render(t)| == k + |Render(t.rest)|
    decreases t, 0, 0
  {
    GroupParts(code, i, t);
    PassArgs(code, i + 1, depth + 1, t.body);
    PassBrackets(code, i, depth, |Render(t.body)|);
  }

  lemma PassPlain(code: string, i: nat, depth: int, t: Args)
    requires t.Plain? && WellFormed(t) && At(code, i, Render(t))
    ensures At(code, i + 1, Render(t.rest)) && CloseAt(code, i, depth, None) == CloseAt(code, i + 1, depth, None)
    ensures |Render(t)| == 1 + |Render(t.rest)|
  {
    AtSplit(code, i, [t.c], Render(t.rest));
  }

  lemma RenderGroup(t: Args)
    requires t.Group?
    ensures Render(t) == [t.open] + Render(t.body) + [t.close] + Render(t.rest)
    ensures |Render(t)| == 2 + |Render(t.body)| + |Render(t.rest)|
  {}

  lemma GroupParts(code: string, i: nat, t: Args)
    requires t.Group? && WellFormed(t) && At(code, i, Render(t))
    ensures var n := |Render(t.body)|;
      && At(code, i + 1, Render(t.body)) && At(code, i + 2 + n, Render(t.rest))
      && IsOpen(code[i]) && IsClose(code[i + 1 + n]) && |Render(t)| == 2 + n + |Render(t.rest)|
  {
    RenderGroup(t);
    Delimited(code, i, t.open, Render(t.body), t.close, Render(t.rest));
  }

  lemma PassQuoted(code: string, i: nat, depth: int, t: Args)
    requires t.Quoted? && WellFormed(t) && At(code, i, Render(t))
    ensures var k := i + 2 + |RenderInside(t.inside)|;
      && At(code, k, Render(t.rest)) && CloseAt(code, i, depth, None) == CloseAt(code, k, depth, None)
      && i + |Render(t)| == k + |Render(t.rest)|
  {
    Delimited(code, i, t.quote, RenderInside(t.inside), t.quote, Render(t.rest));
    PassInside(code, i + 1, depth, t.quote, t.inside);
  }

  lemma PassBrackets(code: string, i: nat, depth: int, n: nat)
    requires i + 1 + n < |code| && IsOpen(code[i]) && IsClose(code[i + 1 + n]) && depth >= 1
    requires CloseAt(code, i + 1, depth + 1, None) == CloseAt(code, i + 1 + n, depth + 1, None)
    ensures CloseAt(code, i, depth, None) == CloseAt(code, i + 2 + n, depth, None)
  {}

  lemma OpensAndCloses(code: string, i: nat)
    requires i < |code|
    ensures IsOpen(code[i]) ==> CloseAt(code, i, 0, None) == CloseAt(code, i + 1, 1, None)
    ensures IsClose(code[i]) ==> CloseAt(code, i, 1, None) == Some(i)
  {}

  lemma ScanBracketed(code: string, i: nat, t: Args)
    requires WellFormed(t) && At(code, i + 1, Render(t)) && i + 1 + |Render(t)| < |code|
    requires IsOpen(code[i]) && IsClose(code[i + 1 + |Render(t)|])
    ensures ArgsFrom(code, i) == Render(t)
  {
    OpensAndCloses(code, i);
    OpensAndCloses(code, i + 1 + |Render(t)|);
    PassArgs(code, i + 1, 1, t);
  }

  /** The delimiters: three quotes and three pairs of brackets. */
  lemma Delimiters(c: char)
    ensures (IsQuote(c) <==> c in "\"'`") && (IsOpen(c) <==> c in "([{") && (IsClose(c) <==> c in ")]}")
  {}

  /** For every prefix, suffix and well-formed text, scanning from the bracket before the text returns
    * exactly the text. */
  lemma ScanIsExact(prefix: string, o: char, t: Args, c: char, suffix: string)
    requires WellFormed(t) && IsOpen(o) && IsClose(c)
    ensures ArgsFrom(prefix + ([o] + Render(t) + [c] + suffix), |prefix|) == Render(t)
  {
    var text := Render(t);
    var part := [o] + text + [c] + suffix;
    assert At(prefix + part, |prefix|, part);
    Delimited(prefix + part, |prefix|, o, text, c, suffix);
    ScanBracketed(prefix + part, |prefix|, t);
  }

  // ---------- and whatever it returns at a closing bracket is well formed ----------

  lemma {:induction false} ReadInside(code: string, i: nat, depth: int, q: char, j: nat) returns (s: Inside, m: nat)
    requires IsQuote(q) && CloseAt(code, i, depth, Some(q)) == Some(j)
    ensures i <= m < j && InsideOk(q, s) && code[i..m] == RenderInside(s) && code[m] == q
    ensures CloseAt(code, m + 1, depth, None) == Some(j)
    decreases |code| - i
  {
    if code[i] == '\\' {
      s, m := ReadInside(code, i + 2, depth, q, j);
      s := Escaped(code[i + 1], s);
      assert code[i..m] == ['\\', code[i + 1]] + code[i + 2..m];
    } else if code[i] == q {
      s, m := Done, i;
    } else {
      s, m := ReadInside(code, i + 1, depth, q, j);
      s := Char(code[i], s);
      assert code[i..m] == [code[i]] + code[i + 1..m];
    }
  }

  lemma JoinSlices(code: string, i: nat, m: nat, k: nat)
    requires i <= m <= k <= |code|
    ensures code[i..k] == code[i..m] + code[m..k]
  {}

  /** Reads the text up to the bracket that closes the current group, and where the scan goes from there. */
  lemma {:induction false} ReadArgs(code: string, i: nat, depth: nat, j: nat) returns (t: Args, k: nat)
    requires depth >= 1 && CloseAt(code, i, depth, None) == Some(j)
    ensures i <= k <= j && WellFormed(t) && code[i..k] == Render(t) && IsClose(code[k])
    ensures if depth == 1 then k == j else CloseAt(code, k + 1, depth - 1, None) == Some(j)
    decreases |code| - i, 1
  {
    if IsClose(code[i]) {
      t, k := End, i;
    } else {
      var head, m := ReadHead(code, i, depth, j);
      var rest;
      rest, k := ReadArgs(code, m, depth, j);
      t := WithRest(head, rest);
      JoinSlices(code, i, m, k);
      RenderWithRest(head, rest);
    }
  }

  function WithRest(t: Args, rest: Args): Args
    requires !t.End?
  {
    t.(rest := rest)
  }

  lemma RenderWithRest(t: Args, rest: Args)
    requires !t.End? && t.rest == End && WellFormed(t) && WellFormed(rest)
    ensures WellFormed(WithRest(t, rest)) && Render(WithRest(t, rest)) == Render(t) + Render(rest)
  {}

  lemma QuotedHead(code: string, i: nat, s: Inside, m: nat)
    requires i < m < |code| && IsQuote(code[i]) && code[m] == code[i] && InsideOk(code[i], s)
    requires code[i + 1..m] == RenderInside(s)
    ensures var t := Quoted(code[i], s, End); WellFormed(t) && code[i..m + 1] == Render(t)
  {
    Slices(code, i, m, m + 1);
  }

  lemma GroupHead(code: string, i: nat, body: Args, m: nat)
    requires i < m < |code| && IsOpen(code[i]) && IsClose(code[m]) && WellFormed(body)
    requires code[i + 1..m] == Render(body)
    ensures var t := Group(code[i], body, code[m], End); WellFormed(t) && code[i..m + 1] == Render(t)
  {
    Slices(code, i, m, m + 1);
  }

  /** One character, string or group, and where the scan stands after it. */
  lemma {:induction false} ReadHead(code: string, i: nat, depth: nat, j: nat) returns (t: Args, m: nat)
    requires depth >= 1 && CloseAt(code, i, depth, None) == Some(j) && !IsClose(code[i])
    ensures i < m <= j && !t.End? && t.rest == End && WellFormed(t) && code[i..m] == Render(t)
    ensures CloseAt(code, m, depth, None) == Some(j)
    decreases |code| - i, 0
  {
    var ch := code[i];
    if IsQuote(ch) {
      var s, q := ReadInside(code, i + 1, depth, ch, j);
      t, m := Quoted(ch, s, End), q + 1;
      QuotedHead(code, i, s, q);
    } else if IsOpen(ch) {
      var body, c := ReadArgs(code, i + 1, depth + 1, j);
      t, m := Group(ch, body, code[c], End), c + 1;
      GroupHead(code, i, body, c);
    } else {
      t, m := Plain(ch, End), i + 1;
    }
  }

  ghost predicate ClosesAt(code: string, openParen: nat, t: Args, j: nat)
    requires openParen < |code|
  {
    openParen < j < |code| && WellFormed(t) && code[openParen + 1..j] == Render(t) && IsClose(code[j])
  }

  /** From any opening bracket the scan ends at `j` if and only if what lies between is a well-formed text
    * followed by a closing bracket; so the text returned is the only one there is. */
  lemma ClosesExactly(code: string, openParen: nat, j: nat)
    requires openParen < |code| && IsOpen(code[openParen])
    ensures CloseAt(code, openParen, 0, None) == Some(j) <==> exists t :: ClosesAt(code, openParen, t, j)
  {
    if CloseAt(code, openParen, 0, None) == Some(j) {
      var t, k := ReadArgs(code, openParen + 1, 1, j);
      assert ClosesAt(code, openParen, t, j);
    }
    if t :| ClosesAt(code, openParen, t, j) {
      PassArgs(code, openParen + 1, 1, t);
    }
  }

  /** When nothing closes the bracket, and only then, the rest of the code comes back. */
  lemma UnclosedReturnsRest(code: string, openParen: nat)
    requires openParen < |code| && IsOpen(code[openParen])
    requires forall t, j :: !ClosesAt(code, openParen, t, j)
    ensures ArgsFrom(code, openParen) == code[openParen + 1..]
  {
    var end := CloseAt(code, openParen, 0, None);
    if end.Some? { ClosesExactly(code, openParen, end.value); }
  }

  /** `_balanced_args`, on any code and any position in it. */
  method BalancedArgs(code: string, openParen: nat) returns (args: string)
    ensures args == ArgsFrom(code, openParen)
    ensures openParen < |code| ==>
      openParen + 1 + |args| <= |code| && args == code[openParen + 1..openParen + 1 + |args|]
  {
    var depth, i, quote := 0, openParen, None;
    while i < |code|
      invariant openParen <= i
      invariant i == openParen || openParen < |code|
      invariant i > openParen || depth == 0
      invariant CloseAt(code, openParen, 0, None) == CloseAt(code, i, depth, quote)
    {
      var ch := code[i];
      if quote.Some? {
        if ch == '\\' {
          i := i + 2;
          continue;
        }
        if ch == quote.value { quote := None; }
      } else if IsQuote(ch) {
        quote := Some(ch);
      } else if IsOpen(ch) {
        depth := depth + 1;
      } else if IsClose(ch) {
        depth := depth - 1;
        if depth == 0 { return code[openParen + 1..i]; }
      }
      i := i + 1;
    }
    args := if openParen < |code| then code[openParen + 1..] else "";
  }
}
