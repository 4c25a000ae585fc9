/** Reading and printing 32-bit addresses, and printing the address fields of a response. */
module Address {
  import opened JsonValues
  import opened Text

  /** An argument as the parser meets it. */
  datatype Input = Chars(s: string) | Number(n: int) | Boolean(b: bool) | OtherType

  /** `Unprintable`: the message of the out-of-range error cannot be built, because Python refuses to write
    * out so long a number; its own ValueError escapes instead. */
  datatype Parsed = Ok(value: int) | AddrInvalid | Unprintable

  /** Python's limit on decimal digits when converting between text and integers. */
  const MAX_DIGITS: nat := 4300

  const WORD: int := 0x1_0000_0000

  /** ASCII characters that `str.strip` removes. */
  predicate IsSpace(c: char) { c == ' ' || '\t' <= c <= '\r' || '\U{1c}' <= c <= '\U{1f}' }

  function Strip(s: string): string {
    if s != [] && IsSpace(s[0]) then Strip(s[1..])
    else if s != [] && IsSpace(s[|s| - 1]) then Strip(s[..|s| - 1])
    else s
  }

  predicate IsHex(c: char) { '0' <= c <= '9' || 'a' <= c <= 'f' || 'A' <= c <= 'F' }

  function HexDigitValue(c: char): nat
    requires IsHex(c)
  {
    if c <= '9' then c as int - '0' as int
    else if c <= 'F' then c as int - 'A' as int + 10 else c as int - 'a' as int + 10
  }

  predicate AllHex(s: string) { forall c | c in s :: IsHex(c) }

  function HexValue(s: string): nat
    requires AllHex(s)
  {
    if s == [] then 0
    else
      assert s[|s| - 1] in s;
      16 * HexValue(s[..|s| - 1]) + HexDigitValue(s[|s| - 1])
  }

  // ---------- decimal text, as `int(s, 10)` takes it ----------

  predicate DoubleAt(s: string, i: nat) { i + 1 < |s| && s[i] == '_' && s[i + 1] == '_' }

  /** Digits, with single underscores between them. */
  predicate DigitGroups(s: string) {
    && s != [] && IsDigit(s[0]) && IsDigit(s[|s| - 1])
    && (forall c | c in s :: IsDigit(c) || c == '_')
    && (forall i | 0 <= i < |s| :: !DoubleAt(s, i))
  }

  function DigitsOf(s: string): (d: string)
    ensures (forall c | c in s :: IsDigit(c) || c == '_') ==> forall c | c in d :: IsDigit(c)
  {
    if s == [] then [] else DigitsOf(s[..|s| - 1]) + if s[|s| - 1] == '_' then [] else [s[|s| - 1]]
  }

  function Unsigned(s: string): string { if s != [] && (s[0] == '+' || s[0] == '-') then s[1..] else s }

  function ParseDigits(body: string, negative: bool): Parsed {
    if !DigitGroups(body) || |DigitsOf(body)| > MAX_DIGITS then AddrInvalid
    else
      var n: int := DecimalValue(DigitsOf(body));
      Ok(if negative then -n else n)
  }

  function ParseDecimal(s: string): Parsed { ParseDigits(Unsigned(s), s != [] && s[0] == '-') }

  // ---------- the parser ----------

  function ParseText(text: string): Parsed {
    var s := Strip(text);
    if s == [] then Ok(0)
    else if StartsWith(Lower(s), "0x") then
      if |s| == 2 || !AllHex(s[2..]) then AddrInvalid else Ok(HexValue(s[2..]))
    else ParseDecimal(s)
  }

  function ParseInt(v: Input): Parsed {
    match v
    case Boolean(_) => AddrInvalid
    case Number(n) => Ok(n)
    case OtherType => AddrInvalid
    case Chars(s) => ParseText(s)
  }

  predicate TooLong(n: nat) { |Decimal(n)| > MAX_DIGITS }

  function ParseAddress(v: Input): Parsed {
    match ParseInt(v)
    case Ok(n) =>
      if 0 <= n < WORD then Ok(n) else if TooLong(if n < 0 then -n else n) then Unprintable else AddrInvalid
    case other => other
  }

  // ---------- the printer ----------

  function HexDigit(d: nat): char
    requires d < 16
  {
    if d < 10 then ('0' as int + d) as char else ('A' as int + d - 10) as char
  }

  /** The lowest `n` hex digits of `v`. */
  function HexDigits(v: nat, n: nat): string {
    if n == 0 then [] else HexDigits(v / 16, n - 1) + [HexDigit(v % 16)]
  }

  /** `value & 0xFFFFFFFF`. */
  function Word(v: int): (w: nat)
    ensures w < WORD && (0 <= v < WORD ==> w == v)
  {
    v % WORD
  }

  function Printed(w: nat): string { "0x" + HexDigits(w, 8) }

  function FormatAddress(v: int): string { Printed(Word(v)) }

  predicate IsUpperHex(c: char) { '0' <= c <= '9' || 'A' <= c <= 'F' }

  predicate Canonical(s: string) {
    |s| == 10 && s[..2] == "0x" && forall i | 2 <= i < 10 :: IsUpperHex(s[i])
  }

  // ---------- they undo each other ----------

  function Pow16(n: nat): nat { if n == 0 then 1 else 16 * Pow16(n - 1) }

  lemma EightDigits()
    ensures Pow16(8) == WORD
  {
    assert Pow16(4) == 65536;
    assert Pow16(8) == 16 * (16 * (16 * (16 * Pow16(4))));
  }

  lemma {:induction false} HexRoundTrip(v: nat, n: nat)
    requires v < Pow16(n)
    ensures |HexDigits(v, n)| == n && (forall c | c in HexDigits(v, n) :: IsUpperHex(c))
    ensures AllHex(HexDigits(v, n)) && HexValue(HexDigits(v, n)) == v
  {
    if n > 0 {
      HexRoundTrip(v / 16, n - 1);
      var s := HexDigits(v, n);
      assert s[..n - 1] == HexDigits(v / 16, n - 1);
    }
  }

  lemma HexDigitAppended(a: nat, c: char, n: nat)
    requires IsUpperHex(c)
    ensures HexDigits(16 * a + HexDigitValue(c), n + 1) == HexDigits(a, n) + [c]
  {
    assert (16 * a + HexDigitValue(c)) / 16 == a && (16 * a + HexDigitValue(c)) % 16 == HexDigitValue(c);
  }

  lemma {:induction false} HexValueBound(s: string)
    requires AllHex(s)
    ensures HexValue(s) < Pow16(|s|)
  {
    if s != [] {
      assert s[|s| - 1] in s;
      HexValueBound(s[..|s| - 1]);
    }
  }

  lemma HexValueAppended(s: string, c: char)
    requires AllHex(s) && IsHex(c)
    ensures AllHex(s + [c]) && HexValue(s + [c]) == 16 * HexValue(s) + HexDigitValue(c)
  {
    assert (s + [c])[..|s|] == s;
  }

  lemma {:induction false} DigitsRoundTrip(s: string)
    requires forall c | c in s :: IsUpperHex(c)
    ensures AllHex(s) && HexDigits(HexValue(s), |s|) == s
  {
    if s != [] {
      var init, c := s[..|s| - 1], s[|s| - 1];
      assert s == init + [c] && c in s;
      DigitsRoundTrip(init);
      HexValueAppended(init, c);
      HexDigitAppended(HexValue(init), c, |init|);
    }
  }

  lemma CanonicalParts(s: string)
    requires Canonical(s)
    ensures s == "0x" + s[2..] && |s[2..]| == 8 && (forall c | c in s[2..] :: IsUpperHex(c))
    ensures AllHex(s[2..]) && ParseText(s) == Ok(HexValue(s[2..])) && HexValue(s[2..]) < WORD
  {
    var d := s[2..];
    forall c | c in d ensures IsUpperHex(c) && !IsSpace(c) {
      var k :| 0 <= k < |d| && d[k] == c;
      assert s[k + 2] == c;
    }
    assert s[9] == d[7] && d[7] in d && s[0] == s[..2][0] == '0' && s[1] == s[..2][1] == 'x';
    assert Strip(s) == s;
    assert Lower(s)[..2] == "0x";
    HexValueBound(d);
    EightDigits();
  }

  /** A string is canonical exactly when it is some address printed. */
  lemma CanonicalExactly(s: string)
    ensures Canonical(s) <==> exists v: int :: s == FormatAddress(v)
  {
    if Canonical(s) { CanonicalIsPrinted(s); }
    if v: int :| s == FormatAddress(v) { PrintedWord(Word(v)); }
  }

  lemma CanonicalIsPrinted(s: string)
    requires Canonical(s)
    ensures AllHex(s[2..]) && s == FormatAddress(HexValue(s[2..]))
  {
    CanonicalParts(s);
    DigitsRoundTrip(s[2..]);
  }

  lemma PrintedWord(w: nat)
    requires w < WORD
    ensures Canonical(Printed(w)) && ParseText(Printed(w)) == Ok(w)
  {
    EightDigits();
    HexRoundTrip(w, 8);
    var d := HexDigits(w, 8);
    var s := "0x" + d;
    assert forall i | 2 <= i < 10 :: s[i] == d[i - 2] && d[i - 2] in d;
    assert s[2..] == d;
    CanonicalParts(s);
  }

  lemma WordRoundTrip(w: nat)
    requires w < WORD
    ensures ParseAddress(Chars(Printed(w))) == Ok(w)
  {
    PrintedWord(w);
  }

  /** Printing then parsing gives every integer back, modulo 2^32; a 32-bit address comes back itself. */
  lemma ParseFormat(v: int)
    ensures ParseAddress(Chars(FormatAddress(v))) == Ok(Word(v))
  {
    WordRoundTrip(Word(v));
  }

  /** What is printed depends on the value modulo 2^32 and on nothing else, and tells it apart. */
  lemma FormatModulo(v: int, w: int)
    ensures FormatAddress(v) == FormatAddress(w) <==> Word(v) == Word(w)
  {
    ParseFormat(v);
    ParseFormat(w);
  }

  /** Any accepted input, printed, is canonical; reading and printing that again changes nothing; and
    * canonical text is its own printed form. */
  lemma FormatParse(v: Input)
    requires ParseAddress(v).Ok?
    ensures var s := FormatAddress(ParseAddress(v).value);
      && Canonical(s) && ParseAddress(Chars(s)) == ParseAddress(v)
      && FormatAddress(ParseAddress(Chars(s)).value) == s
    ensures v.Chars? && Canonical(v.s) ==> FormatAddress(ParseAddress(v).value) == v.s
  {
    PrintedWord(Word(ParseAddress(v).value));
    ParseFormat(ParseAddress(v).value);
    if v.Chars? && Canonical(v.s) {
      CanonicalParts(v.s);
      DigitsRoundTrip(v.s[2..]);
    }
  }

  // ---------- the dropped prefix ----------

  lemma {:induction false} DecimalAtMostHex(d: string)
    requires forall c | c in d :: IsDigit(c)
    ensures AllHex(d) && DecimalValue(d) <= HexValue(d)
    ensures DecimalValue(d) == HexValue(d) <==> forall i | 0 <= i < |d| - 1 :: d[i] == '0'
    ensures HexValue(d) == 0 <==> forall i | 0 <= i < |d| :: d[i] == '0'
  {
    if d != [] {
      var n := |d| - 1;
      assert d[n] in d && forall c | c in d[..n] :: c in d;
      DecimalAtMostHex(d[..n]);
    }
  }

  lemma PrefixedDigits(d: string)
    requires d != [] && AllHex(d)
    ensures ParseText("0x" + d) == Ok(HexValue(d))
  {
    var s := "0x" + d;
    assert d[|d| - 1] in d;
    assert s[0] == '0' && s[|s| - 1] == d[|d| - 1] && s[2..] == d;
    assert Strip(s) == s;
    assert Lower(s)[..2] == "0x";
  }

  lemma DigitsAreGroups(d: string)
    requires d != [] && forall c | c in d :: IsDigit(c)
    ensures DigitGroups(d) && Unsigned(d) == d && d[0] != '-'
  {
    assert d[0] in d && d[|d| - 1] in d;
    forall i: nat | i < |d| ensures !DoubleAt(d, i) { assert d[i] in d; }
  }

  lemma DigitsAreDecimal(d: string)
    requires 0 < |d| <= MAX_DIGITS && forall c | c in d :: IsDigit(c)
    ensures ParseDecimal(d) == Ok(DecimalValue(d))
  {
    DigitsAreGroups(d);
    NoUnderscores(d);
  }

  lemma DigitsHaveNoPrefix(d: string)
    requires forall c | c in d :: IsDigit(c)
    ensures !StartsWith(Lower(d), "0x") && Strip(d) == d
  {
    forall i | 0 <= i < |d| ensures IsDigit(d[i]) && LowerChar(d[i]) == d[i] { assert d[i] in d; }
    if |d| >= 2 { assert Lower(d)[..2][1] == d[1] != "0x"[1]; }
  }

  lemma BareDigits(d: string)
    requires 0 < |d| <= MAX_DIGITS && forall c | c in d :: IsDigit(c)
    ensures ParseText(d) == Ok(DecimalValue(d))
  {
    DigitsHaveNoPrefix(d);
    DigitsAreDecimal(d);
  }

  /** An all-digit text without its "0x" is still accepted, and read as the same number only when at most
    * its last digit is not zero. */
  lemma DroppedPrefix(d: string)
    requires 0 < |d| <= MAX_DIGITS && forall c | c in d :: IsDigit(c)
    ensures ParseInt(Chars("0x" + d)).Ok? && ParseInt(Chars(d)).Ok?
    ensures ParseInt(Chars(d)) == ParseInt(Chars("0x" + d)) <==> forall i | 0 <= i < |d| - 1 :: d[i] == '0'
  {
    DecimalAtMostHex(d);
    PrefixedDigits(d);
    BareDigits(d);
  }

  lemma {:induction false} NoUnderscores(d: string)
    requires forall c | c in d :: IsDigit(c)
    ensures DigitsOf(d) == d
  {
    if d != [] {
      NoUnderscores(d[..|d| - 1]);
      assert d[|d| - 1] in d && d == d[..|d| - 1] + [d[|d| - 1]];
    }
  }

  // ---------- numbers too long for the error message ----------

  function Pow10(n: nat): nat { if n == 0 then 1 else 10 * Pow10(n - 1) }

  lemma {:induction false} DecimalLength(n: nat, k: nat)
    requires k > 0
    ensures |Decimal(n)| > k <==> n >= Pow10(k)
  {
    if n >= 10 && k > 1 { DecimalLength(n / 10, k - 1); }
    if n >= 10 && k == 1 { DecimalRoundTrip(n / 10); }
    if k > 1 { PowersGrow(k - 1); }
  }

  lemma {:induction false} PowersGrow(n: nat)
    ensures 1 <= Pow10(n) <= Pow16(n)
  {
    if n > 0 { PowersGrow(n - 1); }
  }

  lemma {:induction false} HexAtLeast(d: string)
    requires d != [] && AllHex(d) && d[0] != '0'
    ensures HexValue(d) >= Pow16(|d| - 1)
  {
    if |d| > 1 {
      var init := d[..|d| - 1];
      HexAtLeast(init);
      HexValueAppended(init, d[|d| - 1]);
      assert d == init + [d[|d| - 1]];
    } else {
      assert HexDigitValue(d[0]) >= 1;
      HexValueAppended([], d[0]);
      assert d == [] + [d[0]];
    }
  }

  /** Out of the 32-bit range is refused with the address error as long as its message can be written; the
    * other exception escapes exactly for numbers of more than 4300 decimal digits. */
  lemma UnprintableExactly(v: Input)
    ensures ParseAddress(v) == Unprintable <==>
      ParseInt(v).Ok? && (ParseInt(v).value >= Pow10(MAX_DIGITS) || -ParseInt(v).value >= Pow10(MAX_DIGITS))
  {
    if ParseInt(v).Ok? {
      var n := ParseInt(v).value;
      TooLongExactly(if n < 0 then -n else n);
    }
  }

  lemma TooLongExactly(n: nat)
    ensures TooLong(n) <==> n >= Pow10(MAX_DIGITS)
    ensures TooLong(n) ==> n >= WORD
  {
    DecimalLength(n, MAX_DIGITS);
    TenDigits();
    PowersMonotone(10, MAX_DIGITS);
  }

  lemma TenDigits()
    ensures Pow10(10) > WORD
  {
    assert Pow10(5) == 100000;
    assert Pow10(10) == 10 * (10 * (10 * (10 * (10 * Pow10(5)))));
  }

  /** Every hex text of more than 4300 significant digits is such a number. */
  lemma LongHexEscapes(d: string)
    requires |d| > MAX_DIGITS && AllHex(d) && d[0] != '0'
    ensures ParseAddress(Chars("0x" + d)) == Unprintable
  {
    PrefixedDigits(d);
    LongHexIsLarge(d);
    UnprintableExactly(Chars("0x" + d));
  }

  lemma LongHexIsLarge(d: string)
    requires |d| > MAX_DIGITS && AllHex(d) && d[0] != '0'
    ensures HexValue(d) >= Pow10(MAX_DIGITS)
  {
    HexAtLeast(d);
    PowersGrow(|d| - 1);
    PowersMonotone(MAX_DIGITS, |d| - 1);
  }

  lemma {:induction false} PowersMonotone(m: nat, n: nat)
    requires m <= n
    ensures Pow10(m) <= Pow10(n)
    decreases n
  {
    if m < n {
      PowersGrow(n - 1);
      PowersMonotone(m, n - 1);
    }
  }

  // ---------- the fields of a response ----------

  const ADDRESS_FIELDS: set<string> := {"pc", "entry", "address", "start", "end", "related_address",
                                        "entryPoint", "entryAddr", "loadAddress", "load_address"}

  function FormatFields(j: Json): Json
    decreases j, 1
  {
    match j
    case Obj(fields) => Obj(FormatEntries(fields))
    case Arr(items) => Arr(FormatItems(items))
    case _ => j
  }

  function FormatEntry(f: Field): Field
    decreases f, 0
  {
    if f.key in ADDRESS_FIELDS && f.value.Int? then Field(f.key, Str(FormatAddress(f.value.i)))
    else Field(f.key, FormatFields(f.value))
  }

  function FormatEntries(fields: seq<Field>): (r: seq<Field>)
    ensures |r| == |fields|
    ensures forall i | 0 <= i < |fields| :: r[i] == FormatEntry(fields[i])
    decreases fields, 0
  {
    if fields == [] then [] else FormatEntries(fields[..|fields| - 1]) + [FormatEntry(fields[|fields| - 1])]
  }

  function FormatItems(items: seq<Json>): (r: seq<Json>)
    ensures |r| == |items|
    ensures forall i | 0 <= i < |items| :: r[i] == FormatFields(items[i])
    decreases items, 0
  {
    if items == [] then [] else FormatItems(items[..|items| - 1]) + [FormatFields(items[|items| - 1])]
  }

  /** No integer is left under an address key. */
  predicate Formatted(j: Json) {
    match j
    case Obj(fields) => forall i | 0 <= i < |fields| ::
      (fields[i].key in ADDRESS_FIELDS ==> !fields[i].value.Int?) && Formatted(fields[i].value)
    case Arr(items) => forall i | 0 <= i < |items| :: Formatted(items[i])
    case _ => true
  }

  /** Formatting leaves no integer under an address key, at any depth. */
  lemma {:induction false} FormatFieldsFormats(j: Json)
    ensures Formatted(FormatFields(j))
    decreases j
  {
    match j
    case Obj(fields) =>
      var r := FormatEntries(fields);
      forall i | 0 <= i < |fields|
        ensures r[i] == FormatEntry(fields[i]) && Formatted(r[i].value)
        ensures r[i].key in ADDRESS_FIELDS ==> !r[i].value.Int?
      {
        FormatFieldsFormats(fields[i].value);
      }
    case Arr(items) =>
      forall i | 0 <= i < |items| ensures Formatted(FormatFields(items[i])) { FormatFieldsFormats(items[i]); }
    case _ =>
  }

  /** It changes a value exactly when there is such an integer; so formatting twice is formatting once. */
  lemma {:induction false} UnchangedExactly(j: Json)
    ensures FormatFields(j) == j <==> Formatted(j)
    decreases j
  {
    match j
    case Obj(fields) =>
      forall i | 0 <= i < |fields|
        ensures FormatFields(fields[i].value) == fields[i].value <==> Formatted(fields[i].value)
      {
        UnchangedExactly(fields[i].value);
      }
    case Arr(items) =>
      forall i | 0 <= i < |items| ensures FormatFields(items[i]) == items[i] <==> Formatted(items[i]) {
        UnchangedExactly(items[i]);
      }
    case _ =>
  }

  lemma FormatFieldsIdempotent(j: Json)
    ensures FormatFields(FormatFields(j)) == FormatFields(j)
  {
    FormatFieldsFormats(j);
    UnchangedExactly(FormatFields(j));
  }

  // ---------- shape and other values ----------

  datatype Selector = Entry(i: nat) | Item(i: nat)

  /** The value a path leads to. */
  function ValueAt(j: Json, path: seq<Selector>): Option<Json>
    decreases |path|
  {
    if path == [] then Some(j)
    else match path[0]
      case Entry(i) => if j.Obj? && i < |j.fields| then ValueAt(j.fields[i].value, path[1..]) else None
      case Item(i) => if j.Arr? && i < |j.items| then ValueAt(j.items[i], path[1..]) else None
  }

  /** The key a path ends with, when it ends inside an object. */
  function LastKey(j: Json, path: seq<Selector>): Option<string>
    decreases |path|
  {
    if path == [] then None
    else match path[0]
      case Entry(i) =>
        if !j.Obj? || i >= |j.fields| then None
        else if |path| == 1 then Some(j.fields[i].key) else LastKey(j.fields[i].value, path[1..])
      case Item(i) => if !j.Arr? || i >= |j.items| then None else LastKey(j.items[i], path[1..])
  }

  /** The same paths lead somewhere before and after, with the same keys; an integer under an address key
    * becomes its printed form, any other number, text, truth value or null is what it was, and objects and
    * lists stay objects and lists of the same length. */
  lemma {:induction false} FormatFieldsPointwise(j: Json, path: seq<Selector>)
    ensures LastKey(FormatFields(j), path) == LastKey(j, path)
    ensures ValueAt(FormatFields(j), path) == match ValueAt(j, path)
      case None => None
      case Some(x) =>
        if x.Int? && LastKey(j, path).Some? && LastKey(j, path).value in
             {"pc", "entry", "address", "start", "end", "related_address", "entryPoint", "entryAddr", "loadAddress",
              "load_address"}
        then Some(Str(FormatAddress(x.i))) else Some(FormatFields(x))
    decreases |path|
  {
    if path != [] {
      match path[0]
      case Entry(i) =>
        if j.Obj? && i < |j.fields| { FormatFieldsPointwise(j.fields[i].value, path[1..]); }
      case Item(i) =>
        if j.Arr? && i < |j.items| { FormatFieldsPointwise(j.items[i], path[1..]); }
    }
  }
}
