/** What the spelling of an address does not change, and what each kind of argument comes to. */
module AddressText {
  import opened Text
  import opened Address

  // ---------- letter case ----------

  lemma LowerTwice(s: string)
    ensures Lower(Lower(s)) == Lower(s)
  {}

  lemma LowerCut(s: string, i: nat, j: nat)
    requires i <= j <= |s|
    ensures Lower(s[i..j]) == Lower(s)[i..j]
  {}

  lemma {:induction false} StripLower(s: string)
    ensures Strip(Lower(s)) == Lower(Strip(s))
  {
    if s != [] {
      assert IsSpace(s[0]) <==> IsSpace(Lower(s)[0]);
      assert IsSpace(s[|s| - 1]) <==> IsSpace(Lower(s)[|s| - 1]);
      if IsSpace(s[0]) {
        LowerCut(s, 1, |s|);
        assert Lower(s)[1..] == Lower(s)[1..|s|] && s[1..] == s[1..|s|];
        StripLower(s[1..]);
      } else if IsSpace(s[|s| - 1]) {
        LowerCut(s, 0, |s| - 1);
        StripLower(s[..|s| - 1]);
      }
    }
  }

  lemma AllHexLower(s: string)
    ensures AllHex(Lower(s)) <==> AllHex(s)
  {
    assert forall i | 0 <= i < |s| :: IsHex(Lower(s)[i]) <==> IsHex(s[i]);
    forall i | 0 <= i < |s| ensures s[i] in s && Lower(s)[i] in Lower(s) {}
  }

  lemma {:induction false} HexLower(s: string)
    requires AllHex(s) && AllHex(Lower(s))
    ensures HexValue(Lower(s)) == HexValue(s)
  {
    if s != [] {
      var t := s[..|s| - 1];
      LowerCut(s, 0, |s| - 1);
      assert t == s[0..|s| - 1] && Lower(t) == Lower(s)[..|s| - 1];
      assert s[|s| - 1] in s && forall c | c in t :: c in s;
      AllHexLower(t);
      HexLower(t);
    }
  }

  /** Decimal text has no letters. */
  lemma GroupsLower(s: string)
    ensures DigitGroups(Lower(s)) <==> DigitGroups(s)
    ensures DigitGroups(s) ==> Lower(s) == s
  {
    forall i | 0 <= i < |s| ensures s[i] in s && Lower(s)[i] in Lower(s) {}
    if DigitGroups(Lower(s)) {
      forall i | 0 <= i < |s| ensures s[i] == Lower(s)[i] { assert IsDigit(Lower(s)[i]) || Lower(s)[i] == '_'; }
      assert s == Lower(s);
    }
    if DigitGroups(s) {
      forall i | 0 <= i < |s| ensures s[i] == Lower(s)[i] { assert IsDigit(s[i]) || s[i] == '_'; }
      assert s == Lower(s);
    }
  }

  lemma DecimalLower(s: string)
    ensures ParseDecimal(Lower(s)) == ParseDecimal(s)
  {
    if s != [] && (s[0] == '+' || s[0] == '-') {
      assert Lower(s)[1..] == Lower(s[1..]);
      GroupsLower(s[1..]);
    } else {
      GroupsLower(s);
    }
  }

  lemma TextLower(s: string)
    ensures ParseText(Lower(s)) == ParseText(s)
  {
    StripLower(s);
    var t := Strip(s);
    LowerTwice(t);
    if |t| >= 2 {
      assert Lower(t)[2..] == Lower(t[2..]);
      AllHexLower(t[2..]);
      if AllHex(t[2..]) { HexLower(t[2..]); }
    }
    DecimalLower(t);
  }

  /** Texts that differ in letter case only are read alike. */
  lemma CaseDoesNotMatter(s: string, t: string)
    requires Lower(s) == Lower(t)
    ensures ParseAddress(Chars(s)) == ParseAddress(Chars(t))
  {
    TextLower(s);
    TextLower(t);
  }

  // ---------- white space around it ----------

  const WHITE: string := " \t\n\r\U{0b}\U{0c}\U{1c}\U{1d}\U{1e}\U{1f}"

  predicate AllWhite(s: string) { forall i | 0 <= i < |s| :: s[i] in WHITE }

  predicate AllSpace(s: string) { forall i | 0 <= i < |s| :: IsSpace(s[i]) }

  lemma WhiteIsSpace(s: string)
    requires AllWhite(s)
    ensures AllSpace(s)
  {}

  lemma {:induction false} StripFront(p: string, s: string)
    requires AllSpace(p)
    ensures Strip(p + s) == Strip(s)
  {
    if p == [] {
      assert p + s == s;
    } else {
      assert (p + s)[0] == p[0] && (p + s)[1..] == p[1..] + s;
      StripFront(p[1..], s);
    }
  }

  lemma {:induction false} StripEnds(s: string, q: string)
    requires AllSpace(q)
    ensures Strip(s + q) == Strip(s)
    decreases |s| + |q|
  {
    if q == [] {
      assert s + q == s;
    } else if s == [] {
      assert s + q == q;
      StripFront(q, []);
      assert q + [] == q;
    } else if IsSpace(s[0]) {
      assert (s + q)[0] == s[0] && (s + q)[1..] == s[1..] + q;
      StripEnds(s[1..], q);
    } else {
      var n := |q| - 1;
      assert (s + q)[0] == s[0] && (s + q)[|s + q| - 1] == q[n] && (s + q)[..|s + q| - 1] == s + q[..n];
      StripEnds(s, q[..n]);
    }
  }

  /** White space around a text does not change how it is read. */
  lemma PaddingDoesNotMatter(p: string, s: string, q: string)
    requires AllWhite(p) && AllWhite(q)
    ensures ParseAddress(Chars(p + s + q)) == ParseAddress(Chars(s))
  {
    WhiteIsSpace(p);
    WhiteIsSpace(q);
    StripEnds(p + s, q);
    StripFront(p, s);
  }

  // ---------- numbers of every kind ----------

  /** An integer in range is itself and every other one is refused; so is anything that is neither text nor an
    * integer; and no text at all means zero. */
  lemma IntegersAreThemselves(n: int, b: bool)
    ensures ParseAddress(Number(n)) == Ok(n) <==> 0 <= n <= 0xFFFF_FFFF
    ensures ParseAddress(Number(n)).Ok? <==> 0 <= n <= 0xFFFF_FFFF
    ensures !ParseAddress(Boolean(b)).Ok? && !ParseAddress(OtherType).Ok?
    ensures ParseAddress(Chars("")) == Ok(0)
  {}

  lemma NoPrefix(s: string)
    requires s != [] && s[0] != '0'
    ensures !StartsWith(Lower(s), "0x")
  {
    if |s| >= 2 { assert Lower(s)[..2][0] == LowerChar(s[0]) != "0x"[0]; }
  }

  lemma SignedStays(sign: char, d: string)
    requires (sign == '+' || sign == '-') && d != [] && forall c | c in d :: IsDigit(c)
    ensures Strip([sign] + d) == [sign] + d
  {
    var s := [sign] + d;
    assert d[|d| - 1] in d && s[|s| - 1] == d[|d| - 1];
  }

  function Signed(n: int, negative: bool): int { if negative then -n else n }

  lemma GroupsAreValue(d: string, negative: bool)
    requires DigitGroups(d) && DigitsOf(d) == d && |d| <= MAX_DIGITS && forall c | c in d :: IsDigit(c)
    ensures ParseDigits(d, negative) == Ok(Signed(DecimalValue(d), negative))
  {}

  lemma DigitsAreValue(d: string, negative: bool)
    requires 0 < |d| <= MAX_DIGITS && forall c | c in d :: IsDigit(c)
    ensures ParseDigits(d, negative) == Ok(Signed(DecimalValue(d), negative))
  {
    DigitsAreGroups(d);
    NoUnderscores(d);
    GroupsAreValue(d, negative);
  }

  lemma SignedIsRead(sign: char, d: string)
    requires (sign == '+' || sign == '-') && 0 < |d| <= MAX_DIGITS && forall c | c in d :: IsDigit(c)
    ensures ParseText([sign] + d) == ParseDigits(d, sign == '-')
  {
    var s := [sign] + d;
    SignedStays(sign, d);
    NoPrefix(s);
    assert s[1..] == d;
    assert Unsigned(s) == d;
  }

  /** A decimal numeral is read as its number, with a plus sign too, and with a minus sign as the opposite,
    * which is no address unless it is zero. */
  lemma NumeralsAreRead(n: int)
    requires n >= 0 && |Decimal(n)| <= MAX_DIGITS
    ensures ParseInt(Chars(Decimal(n))) == Ok(n) && ParseInt(Chars(['+'] + Decimal(n))) == Ok(n)
    ensures ParseInt(Chars(['-'] + Decimal(n))) == Ok(-n)
    ensures ParseAddress(Chars(['-'] + Decimal(n))) == if n == 0 then Ok(0) else AddrInvalid
  {
    DecimalRoundTrip(n);
    BareDigits(Decimal(n));
    SignedIsRead('+', Decimal(n));
    SignedIsRead('-', Decimal(n));
    DigitsAreValue(Decimal(n), false);
    DigitsAreValue(Decimal(n), true);
  }

  /** Digits, with single underscores between them. */
  ghost predicate Grouped(u: string) {
    && u != [] && u[0] != '_' && u[|u| - 1] != '_' && (forall c | c in u :: c in "0123456789_")
    && forall i, j | 0 <= i < j < |u| && j == i + 1 :: u[i] != '_' || u[j] != '_'
  }

  lemma DigitCharacters(c: char)
    ensures c in "0123456789_" <==> IsDigit(c) || c == '_'
  {}

  lemma CharactersAgree(u: string)
    ensures (forall c | c in u :: c in "0123456789_") <==> forall c | c in u :: IsDigit(c) || c == '_'
  {
    forall c ensures c in "0123456789_" <==> IsDigit(c) || c == '_' { DigitCharacters(c); }
  }

  lemma GroupedIsGroups(u: string)
    requires Grouped(u)
    ensures DigitGroups(u)
  {
    CharactersAgree(u);
    assert u[0] in u && u[|u| - 1] in u;
    forall i: nat | i < |u| ensures !DoubleAt(u, i) {
      if i + 1 < |u| {
        var j := i + 1;
        assert u[i] != '_' || u[j] != '_';
      }
    }
  }

  lemma GroupsIsGrouped(u: string)
    requires DigitGroups(u)
    ensures Grouped(u)
  {
    CharactersAgree(u);
    forall i, j | 0 <= i < j < |u| && j == i + 1 ensures u[i] != '_' || u[j] != '_' { assert !DoubleAt(u, i); }
  }

  /** Text without "0x" is accepted exactly if, after an optional sign, it is of digits with single underscores
    * between them, and not too many digits. */
  lemma DecimalAccepted(s: string)
    requires Strip(s) != [] && !StartsWith(Lower(Strip(s)), "0x")
    ensures var t := Strip(s);
      var u := if t[0] == '+' || t[0] == '-' then t[1..] else t;
      ParseInt(Chars(s)).Ok? <==> Grouped(u) && |DigitsOf(u)| <= MAX_DIGITS
  {
    UnsignedAccepted(Unsigned(Strip(s)), Strip(s)[0] == '-');
  }

  lemma UnsignedAccepted(u: string, negative: bool)
    ensures ParseDigits(u, negative).Ok? <==> Grouped(u) && |DigitsOf(u)| <= MAX_DIGITS
  {
    if Grouped(u) { GroupedIsGroups(u); }
    if DigitGroups(u) { GroupsIsGrouped(u); }
  }

  lemma HexCharacters(c: char)
    ensures c in "0123456789abcdefABCDEF" <==> IsHex(c)
  {}

  /** Text with "0x" is accepted exactly if at least one character follows and all that follow are hex digits. */
  lemma HexAccepted(s: string)
    requires StartsWith(Lower(Strip(s)), "0x")
    ensures ParseInt(Chars(s)).Ok? <==>
      |Strip(s)| > 2 && forall c | c in Strip(s)[2..] :: c in "0123456789abcdefABCDEF"
  {
    forall c ensures c in "0123456789abcdefABCDEF" <==> IsHex(c) { HexCharacters(c); }
  }

  /** No text with a minus sign is read as an address other than zero. */
  lemma NegativeTextRefused(s: string)
    requires Strip(s) != [] && Strip(s)[0] == '-'
    ensures ParseAddress(Chars(s)).Ok? ==> ParseAddress(Chars(s)) == Ok(0)
  {
    NoPrefix(Strip(s));
  }

  /** Hex digits after "0x" are read as their number, whatever their count. */
  lemma HexIsRead(v: nat, n: nat)
    requires n > 0 && v < Pow16(n)
    ensures ParseInt(Chars("0x" + HexDigits(v, n))) == Ok(v)
  {
    HexRoundTrip(v, n);
    PrefixedDigits(HexDigits(v, n));
  }
}
