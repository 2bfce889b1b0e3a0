/** The JSON grammar (RFC 8259) as a relation between texts and documents, and
    that the scanner reads exactly it. */
module JsonGrammar {
  import opened Utf8
  import opened JsonNumbers
  import opened JsonStrings
  import opened JsonCodec
  import JsonTheorems

  /** Any amount of white space, and the rest (section 2). */
  ghost predicate White(s: Text, rest: Text) {
    exists n: nat :: WhiteFor(s, n, rest)
  }

  predicate WhiteFor(s: Text, n: nat, rest: Text) {
    n <= |s| && rest == s[n..] && forall i | 0 <= i < n :: s[i] in Ascii(" \t\n\r")
  }

  // ----- numbers -----

  predicate AllDigit(t: Text) {
    forall i | 0 <= i < |t| :: '0' as int <= t[i] <= '9' as int
  }

  /** Section 6: no leading zero but a single one. */
  predicate WholePart(t: Text) {
    t != [] && AllDigit(t) && (t[0] == '0' as int ==> |t| == 1)
  }

  predicate FractionPart(t: Text) {
    t == [] || (|t| > 1 && t[0] == '.' as int && AllDigit(t[1..]))
  }

  predicate ExponentPart(t: Text) {
    t == [] || (t[0] in Ascii("eE")
                && ((|t| > 1 && AllDigit(t[1..])) || (|t| > 2 && t[1] in Ascii("+-") && AllDigit(t[2..]))))
  }

  function Power(n: nat): (p: nat) {
    if n == 0 then 1 else 10 * Power(n - 1)
  }

  /** Each digit times the power of ten of its place. */
  function Worth(t: Text): (n: int) {
    if t == [] then 0 else (t[0] - '0' as int) * Power(|t| - 1) + Worth(t[1..])
  }

  predicate SpellsWhole(t: Text, n: int) {
    || (WholePart(t) && n == Worth(t))
    || (t != [] && t[0] == '-' as int && WholePart(t[1..]) && n == -Worth(t[1..]))
  }

  /** A number with a fraction or an exponent. */
  predicate FloatParts(t: Text, sign: Text, whole: Text, fraction: Text, exponent: Text) {
    && t == sign + whole + fraction + exponent && (sign == [] || sign == Ascii("-"))
    && WholePart(whole) && FractionPart(fraction) && ExponentPart(exponent) && fraction + exponent != []
  }

  ghost predicate SpellsFloat(t: Text) {
    exists sign, whole, fraction, exponent :: FloatParts(t, sign, whole, fraction, exponent)
  }

  lemma {:induction false} WorthAppend(t: Text, c: Code)
    ensures Worth(t + [c]) == 10 * Worth(t) + (c - '0' as int)
    decreases |t|
  {
    if t == [] {
      assert [c][1..] == [] && Power(0) == 1;
    } else {
      WorthAppend(t[1..], c);
      assert (t + [c])[1..] == t[1..] + [c];
      Tenfold(t[0] - '0' as int, Power(|t| - 1));
    }
  }

  lemma Tenfold(a: int, b: int)
    ensures a * (10 * b) == 10 * (a * b)
  {
  }

  lemma {:induction false} ValueIsWorth(t: Text)
    ensures Value(t) == Worth(t)
    decreases |t|
  {
    if t != [] {
      ValueIsWorth(t[..|t| - 1]);
      WorthAppend(t[..|t| - 1], t[|t| - 1]);
      assert t == t[..|t| - 1] + [t[|t| - 1]];
    }
  }

  lemma {:induction false} DigitsIs(t: Text)
    ensures DigitsLen(t) == |t| <==> AllDigit(t)
    decreases |t|
  {
    if t != [] {
      DigitsIs(t[1..]);
      assert forall i | 1 <= i < |t| :: t[i] == t[1..][i - 1];
    }
  }

  lemma WholeIs(t: Text)
    ensures WholePart(t) <==> IntLen(t) == |t| > 0
  {
    DigitsIs(t);
  }

  lemma FractionIs(t: Text)
    ensures FractionPart(t) <==> FracLen(t) == |t|
  {
    if t != [] { DigitsIs(t[1..]); }
  }

  lemma ExponentIs(t: Text)
    ensures ExponentPart(t) <==> ExpLen(t) == |t|
  {
    hide DigitsLen, AllDigit;
    var e, sign := Ascii("eE"), Ascii("+-");
    assert e[0] == 101 && e[1] == 69 && |e| == 2 && sign[0] == 43 && sign[1] == 45 && |sign| == 2;
    if t != [] { DigitsIs(t[1..]); }
    if |t| > 1 {
      DigitsIs(t[2..]);
      if t[1] == 43 || t[1] == 45 { assert !AllDigit(t[1..]) by { SignIsNoDigit(t); } }
    }
  }

  lemma SignIsNoDigit(t: Text)
    requires |t| > 1 && (t[1] == 43 || t[1] == 45)
    ensures !AllDigit(t[1..])
  {
    assert t[1..][0] == t[1];
  }

  /** Without its sign, a number is a whole part, a fraction and an exponent. */
  lemma UnsignedIs(t: Text)
    ensures ScanUnsigned(t) == Token(|t|, |t|) <==> WholePart(t)
    ensures forall whole, fraction, exponent | t == whole + fraction + exponent && WholePart(whole) && FractionPart(fraction) && ExponentPart(exponent) ::
              ScanUnsigned(t) == Token(|whole|, |t|)
    ensures ScanUnsigned(t).Token? && ScanUnsigned(t).total == |t| ==>
              var b := IntLen(t); var f := FracLen(t[b..]);
              && b + f <= |t| && WholePart(t[..b]) && FractionPart(t[b..b + f]) && ExponentPart(t[b + f..])
              && ScanUnsigned(t).whole == b
  {
    WholeIs(t);
    assert t[|t|..] == [];
    forall whole, fraction, exponent | t == whole + fraction + exponent && WholePart(whole) && FractionPart(fraction) && ExponentPart(exponent)
      ensures ScanUnsigned(t) == Token(|whole|, |t|)
    {
      PartsScan(t, whole, fraction, exponent);
    }
    if ScanUnsigned(t).Token? && ScanUnsigned(t).total == |t| { ScanParts(t); }
  }

  lemma ScanParts(t: Text)
    requires ScanUnsigned(t).Token? && ScanUnsigned(t).total == |t|
    ensures var b := IntLen(t); var f := FracLen(t[b..]);
            b + f <= |t| && WholePart(t[..b]) && FractionPart(t[b..b + f]) && ExponentPart(t[b + f..]) && ScanUnsigned(t).whole == b
  {
    hide WholePart, FractionPart, ExponentPart, IntLen, FracLen, ExpLen;
    var b := IntLen(t);
    var rest := t[b..];
    var f := FracLen(rest);
    IntLenOf(t);
    FracLenOf(rest);
    assert rest[..f] == t[b..b + f] && rest[f..] == t[b + f..];
    WholeIs(t[..b]);
    FractionIs(t[b..b + f]);
    ExponentIs(t[b + f..]);
  }

  lemma {:induction false} DigitsLenOf(t: Text)
    ensures DigitsLen(t[..DigitsLen(t)]) == DigitsLen(t)
    decreases |t|
  {
    if t != [] && Digit(t[0]) {
      DigitsLenOf(t[1..]);
      var n := DigitsLen(t);
      assert t[..n][1..] == t[1..][..n - 1];
    }
  }

  lemma IntLenOf(t: Text)
    ensures IntLen(t[..IntLen(t)]) == IntLen(t)
  {
    DigitsLenOf(t);
  }

  lemma FracLenOf(t: Text)
    ensures FracLen(t[..FracLen(t)]) == FracLen(t)
  {
    if FracLen(t) > 0 {
      DigitsLenOf(t[1..]);
      assert t[..FracLen(t)][1..] == t[1..][..FracLen(t) - 1];
    }
  }

  /** A part is scanned to its end whatever part follows, which does not begin with a
      digit or, after a fraction, with a point. */
  lemma {:induction false} DigitsEnd(t: Text, rest: Text)
    requires AllDigit(t) && (rest == [] || !Digit(rest[0]))
    ensures DigitsLen(t + rest) == |t|
    decreases |t|
  {
    if t == [] {
      assert t + rest == rest;
    } else {
      DigitsEnd(t[1..], rest);
      assert (t + rest)[1..] == t[1..] + rest && (t + rest)[0] == t[0];
    }
  }

  lemma PartsScan(t: Text, whole: Text, fraction: Text, exponent: Text)
    requires t == whole + fraction + exponent && WholePart(whole) && FractionPart(fraction) && ExponentPart(exponent)
    ensures ScanUnsigned(t) == Token(|whole|, |t|)
  {
    var e := Ascii("eE");
    assert e[0] == 101 && e[1] == 69 && |e| == 2;
    var after := fraction + exponent;
    assert t == whole + after;
    assert after == [] || !Digit(after[0]);
    DigitsEnd(whole, after);
    assert IntLen(t) == |whole| by { assert t[0] == whole[0]; }
    assert t[|whole|..] == after;
    FractionScan(fraction, exponent);
    assert after[|fraction|..] == exponent;
    ExponentIs(exponent);
  }

  lemma FractionScan(fraction: Text, exponent: Text)
    requires FractionPart(fraction) && ExponentPart(exponent)
    ensures FracLen(fraction + exponent) == |fraction|
  {
    var e := Ascii("eE");
    assert e[0] == 101 && e[1] == 69 && |e| == 2;
    if fraction == [] {
      assert fraction + exponent == exponent;
    } else {
      DigitsEnd(fraction[1..], exponent);
      assert (fraction + exponent)[1..] == fraction[1..] + exponent;
    }
  }

  /** The scanner's integer tokens are the grammar's, and of the same value. */
  lemma WholeTokens(t: Text, n: int)
    ensures IsIntLexeme(t) && IntValue(t) == n <==> SpellsWhole(t, n)
  {
    var a := SignLen(t);
    UnsignedIs(t[a..]);
    ValueIsWorth(t[a..]);
    if a == 0 { assert t[0..] == t; }
    if t != [] && t[0] == '-' as int { assert !WholePart(t); }
  }

  /** And so are its other numbers. */
  lemma FloatTokens(t: Text)
    ensures IsFloatLexeme(t) <==> SpellsFloat(t)
  {
    hide FloatParts, Scan;
    if IsFloatLexeme(t) { FloatHasParts(t); }
    if sign, whole, fraction, exponent :| FloatParts(t, sign, whole, fraction, exponent) { FloatScans(t, sign, whole, fraction, exponent); }
  }

  lemma MinusIs()
    ensures Ascii("-") == [45]
  {
    assert Ascii("-")[0] == 45;
  }

  lemma FloatHasParts(t: Text)
    requires IsFloatLexeme(t)
    ensures SpellsFloat(t)
  {
    hide WholePart, FractionPart, ExponentPart, IntLen, FracLen, ScanUnsigned, Ascii, FloatParts;
    MinusIs();
    var a := SignLen(t);
    var u := t[a..];
    UnsignedToken(t);
    ScanParts(u);
    var b := IntLen(u);
    var f := FracLen(u[b..]);
    FourParts(t, a, b, f);
    PartsOf(t, t[..a], u[..b], u[b..b + f], u[b + f..]);
  }

  lemma UnsignedToken(t: Text)
    requires IsFloatLexeme(t)
    ensures var u := t[SignLen(t)..];
            ScanUnsigned(u).Token? && ScanUnsigned(u).whole < ScanUnsigned(u).total == |u|
    ensures t[..SignLen(t)] == [] || t[..SignLen(t)] == [45]
  {
    hide ScanUnsigned;
  }

  lemma FourParts(t: Text, a: nat, b: nat, f: nat)
    requires a + b + f <= |t|
    ensures var u := t[a..];
            && t == t[..a] + u[..b] + u[b..b + f] + u[b + f..]
            && (b < |u| ==> u[b..b + f] + u[b + f..] != [])
  {
    var u := t[a..];
    assert u == u[..b] + u[b..b + f] + u[b + f..];
    assert u[b..b + f] + u[b + f..] == u[b..];
  }

  lemma PartsOf(t: Text, sign: Text, whole: Text, fraction: Text, exponent: Text)
    requires t == sign + whole + fraction + exponent && (sign == [] || sign == Ascii("-"))
    requires WholePart(whole) && FractionPart(fraction) && ExponentPart(exponent) && fraction + exponent != []
    ensures SpellsFloat(t)
  {
    hide WholePart, FractionPart, ExponentPart, Ascii;
    assert FloatParts(t, sign, whole, fraction, exponent);
  }

  lemma FloatScans(t: Text, sign: Text, whole: Text, fraction: Text, exponent: Text)
    requires FloatParts(t, sign, whole, fraction, exponent)
    ensures IsFloatLexeme(t)
  {
    hide ScanUnsigned, FractionPart, ExponentPart;
    MinusIs();
    var u := whole + fraction + exponent;
    assert t == sign + u;
    assert u[0] == whole[0];
    assert SignLen(t) == |sign| && t[|sign|..] == u;
    PartsScan(u, whole, fraction, exponent);
    assert |u| == |whole| + |fraction + exponent|;
  }

  // ----- white space -----

  predicate Visible(s: Text) {
    s == [] || !(s[0] in Ascii(" \t\n\r"))
  }

  lemma BlanksAre(c: Code)
    ensures c in Ascii(" \t\n\r") <==> IsWs(c)
  {
    var w := Ascii(" \t\n\r");
    assert w[0] == 32 && w[1] == 9 && w[2] == 10 && w[3] == 13 && |w| == 4;
  }

  /** Skipping finds the one place after white space where something begins. */
  lemma {:induction false} SkipIs(s: Text, rest: Text)
    ensures White(s, rest) && Visible(rest) <==> rest == SkipWs(s)
    decreases |s|
  {
    hide Ascii;
    if s != [] { BlanksAre(s[0]); }
    if s != [] && IsWs(s[0]) {
      SkipIs(s[1..], rest);
      if White(s, rest) && Visible(rest) {
        var n: nat :| WhiteFor(s, n, rest);
        assert n > 0;
        assert rest == s[1..][n - 1..] && forall i | 0 <= i < n - 1 :: s[1..][i] == s[i + 1];
        assert WhiteFor(s[1..], n - 1, rest);
      }
      if rest == SkipWs(s) {
        var n: nat :| WhiteFor(s[1..], n, rest);
        assert rest == s[n + 1..] && forall i | 1 <= i < n + 1 :: s[i] == s[1..][i - 1];
        assert WhiteFor(s, n + 1, rest);
      }
    } else {
      if White(s, rest) && Visible(rest) {
        var n: nat :| WhiteFor(s, n, rest);
        assert n == 0 && s[0..] == s;
      }
      assert s == s[0..];
      assert WhiteFor(s, 0, s);
    }
  }

  // ----- strings (section 7) -----

  /** The letter after a backslash, and what it stands for. */
  predicate Escapes(e: Code, c: Code) {
    || (e == '"' as int && c == '"' as int) || (e == '\\' as int && c == '\\' as int) || (e == '/' as int && c == '/' as int)
    || (e == 'b' as int && c == 8) || (e == 'f' as int && c == 12) || (e == 'n' as int && c == 10)
    || (e == 'r' as int && c == 13) || (e == 't' as int && c == 9)
  }

  predicate HexIs(c: Code, d: int) {
    || ('0' as int <= c <= '9' as int && d == c - '0' as int)
    || ('a' as int <= c <= 'f' as int && d == c - 'a' as int + 10)
    || ('A' as int <= c <= 'F' as int && d == c - 'A' as int + 10)
  }

  predicate HexesAre(c: Code, d: Code, e: Code, f: Code, n: int)
    requires 0 <= n < 65536
  {
    HexIs(c, n / 4096) && HexIs(d, n / 256 % 16) && HexIs(e, n / 16 % 16) && HexIs(f, n % 16)
  }

  /** Backslash, u, and four hexadecimal digits. */
  predicate Unicode(s: Text, n: int) {
    && 0 <= n < 65536 && |s| >= 6 && s[0] == '\\' as int && s[1] == 'u' as int && HexesAre(s[2], s[3], s[4], s[5], n)
  }

  predicate OpensUnicode(s: Text) {
    |s| >= 2 && s[0] == '\\' as int && s[1] == 'u' as int
  }

  predicate High(n: int) {
    0xD800 <= n <= 0xDBFF
  }

  predicate LowHalf(n: int) {
    0xDC00 <= n <= 0xDFFF
  }

  predicate Single(s: Text, c: int, rest: Text) {
    Unicode(s, c) && rest == s[6..]
  }

  /** The two codes of a pair. */
  predicate Pair(s: Text, hi: int, lo: int) {
    Unicode(s, hi) && High(hi) && Unicode(s[6..], lo) && LowHalf(lo)
  }

  /** One character: as it is, unless it is a control character, a quote or a
      backslash; by a letter; by a code; or, outside the basic plane, by the two
      codes of a pair. A high half followed by a low one is always a pair. */
  ghost predicate OneChar(s: Text, c: Code, rest: Text) {
    || (s != [] && s[0] == c && c >= 32 && c != '"' as int && c != '\\' as int && rest == s[1..])
    || (|s| >= 2 && s[0] == '\\' as int && Escapes(s[1], c) && rest == s[2..])
    || (Single(s, c, rest)
        && (High(c) && OpensUnicode(rest) ==> exists n :: Unicode(rest, n) && !LowHalf(n)))
    || (exists hi, lo :: Pair(s, hi, lo) && c == 0x10000 + (hi - 0xD800) * 1024 + (lo - 0xDC00) && rest == s[12..])
  }

  /** The characters of a string, and its closing quote. */
  ghost predicate Body(s: Text, t: Text, rest: Text)
    decreases |t|
  {
    if t == [] then s != [] && s[0] == '"' as int && rest == s[1..]
    else exists next :: OneChar(s, t[0], next) && Body(next, t[1..], rest)
  }

  lemma HexValueIs(c: Code)
    ensures forall d :: HexIs(c, d) <==> d == HexValue(c) >= 0
  {
  }

  lemma Hex4Is(s: Text, n: int)
    requires |s| >= 4
    ensures 0 <= n < 65536 && HexesAre(s[0], s[1], s[2], s[3], n) <==> n == Hex4(s) >= 0
  {
    hide HexIs, HexValue, Hex4;
    HexValueIs(s[0]);
    HexValueIs(s[1]);
    HexValueIs(s[2]);
    HexValueIs(s[3]);
    var a, b, c, d := HexValue(s[0]), HexValue(s[1]), HexValue(s[2]), HexValue(s[3]);
    Hex4Value(s);
    if a >= 0 && b >= 0 && c >= 0 && d >= 0 { FourDigits(a, b, c, d); }
    if 0 <= n < 65536 { DigitsOf(n); }
  }

  lemma Hex4Value(s: Text)
    requires |s| >= 4
    ensures var a, b, c, d := HexValue(s[0]), HexValue(s[1]), HexValue(s[2]), HexValue(s[3]);
            if a >= 0 && b >= 0 && c >= 0 && d >= 0 then Hex4(s) == 4096 * a + 256 * b + 16 * c + d else Hex4(s) == -1
  {
    hide HexValue;
  }

  lemma DigitsOf(n: int)
    requires 0 <= n < 65536
    ensures n == 4096 * (n / 4096) + 256 * (n / 256 % 16) + 16 * (n / 16 % 16) + n % 16
  {
    assert n / 256 / 16 == n / 4096;
  }

  lemma FourDigits(a: int, b: int, c: int, d: int)
    requires 0 <= a < 16 && 0 <= b < 16 && 0 <= c < 16 && 0 <= d < 16
    ensures var n := 4096 * a + 256 * b + 16 * c + d;
            0 <= n < 65536 && n / 4096 == a && n / 256 % 16 == b && n / 16 % 16 == c && n % 16 == d
  {
    var n := 4096 * a + 256 * b + 16 * c + d;
    assert n / 16 == 256 * a + 16 * b + c;
    assert n / 256 == 16 * a + b;
  }

  lemma UnicodeIs(s: Text, n: int)
    ensures Unicode(s, n) <==> OpensUnicode(s) && |s| >= 6 && n == Hex4(s[2..]) >= 0
  {
    hide HexesAre, Hex4;
    if |s| >= 6 { Hex4Is(s[2..], n); }
  }

  /** One character is read exactly as the grammar has it. */
  lemma CharIs(s: Text, c: Code, rest: Text)
    requires s != [] && s[0] != '"' as int
    ensures OneChar(s, c, rest) <==> ParseChar(s) == Ok(c, rest)
  {
    hide Unicode, Hex4, ParseUnicode, Escapes, UnescapeLetter;
    forall t: Text, n ensures Unicode(t, n) <==> OpensUnicode(t) && |t| >= 6 && n == Hex4(t[2..]) >= 0 { UnicodeIs(t, n); }
    if OpensUnicode(s) {
      UnicodeRead(s, c, rest);
      assert !Escapes(s[1], c) by { NoUEscape(c); }
    } else if |s| >= 2 && s[0] == '\\' as int {
      EscapeIs(s[1], c);
    }
  }

  lemma NoUEscape(c: Code)
    ensures !Escapes('u' as int, c)
  {
  }

  lemma EscapeIs(e: Code, c: Code)
    ensures Escapes(e, c) <==> UnescapeLetter(e) == c
  {
  }

  lemma UnicodeRead(s: Text, c: Code, rest: Text)
    requires OpensUnicode(s)
    ensures ParseUnicode(s[2..]) == Ok(c, rest)
            <==> || (Single(s, c, rest) && (High(c) && OpensUnicode(rest) ==> exists n :: Unicode(rest, n) && !LowHalf(n)))
                 || (exists hi, lo :: Pair(s, hi, lo) && c == 0x10000 + (hi - 0xD800) * 1024 + (lo - 0xDC00) && rest == s[12..])
  {
    hide Unicode, Hex4, OpensUnicode;
    Opens(s);
    var hi := Hex4(s[2..]);
    forall n ensures Unicode(s, n) <==> |s| >= 6 && n == hi >= 0 { UnicodeIs(s, n); }
    if |s| >= 6 && hi >= 0 {
      var t := s[6..];
      assert s[2..][4..] == t;
      assert OpensUnicode(t) <==> |s[2..]| >= 6 && s[2..][4] == BACKSLASH && s[2..][5] == 117 by { OpensAt(s); }
      if High(hi) && OpensUnicode(t) {
        assert |t| >= 2 by { Opens(t); }
        var lo := Hex4(t[2..]);
        assert s[2..][6..] == t[2..];
        forall n ensures Unicode(t, n) <==> |t| >= 6 && n == lo >= 0 { UnicodeIs(t, n); }
        if lo >= 0 {
          assert s[2..][10..] == s[12..];
          assert Unicode(t, lo);
          if LowHalf(lo) { assert Pair(s, hi, lo); }
        }
      } else {
        forall lo | Unicode(t, lo) ensures OpensUnicode(t) { UnicodeIs(t, lo); }
      }
    }
  }

  lemma Opens(t: Text)
    requires OpensUnicode(t)
    ensures |t| >= 2
  {
  }

  lemma OpensAt(s: Text)
    requires |s| >= 6
    ensures OpensUnicode(s[6..]) <==> |s[2..]| >= 6 && s[2..][4] == BACKSLASH && s[2..][5] == 117
  {
  }

  /** A string is read exactly as the grammar has it. */
  lemma {:induction false} BodyIs(s: Text, t: Text, rest: Text)
    ensures Body(s, t, rest) <==> ParseChars(s) == Ok(t, rest)
    decreases |s|
  {
    hide OneChar, ParseChar;
    if s != [] && s[0] != '"' as int {
      forall c: Code, next ensures OneChar(s, c, next) <==> ParseChar(s) == Ok(c, next) { CharIs(s, c, next); }
      match ParseChar(s)
      case Ok(c, next) =>
        if t != [] { BodyIs(next, t[1..], rest); }
        if ParseChars(next).Ok? {
          var r := ParseChars(next);
          assert ([c] + r.value)[1..] == r.value;
          if ParseChars(s) == Ok(t, rest) { assert t[0] == c && t[1..] == r.value; }
        }
        if t != [] { assert [t[0]] + t[1..] == t; }
      case _ =>
    } else {
      assert t != [] ==> forall next :: !OneChar(s, t[0], next) by { NoChar(s); }
    }
  }

  lemma NoChar(s: Text)
    requires s == [] || s[0] == '"' as int
    ensures forall c: Code, next :: !OneChar(s, c, next)
  {
  }

  // ----- values (sections 3 to 5) -----

  predicate EndsHere(rest: Text) {
    rest == [] || rest[0] !in Ascii("0123456789+-.eE")
  }

  predicate Begins(s: Text, c: char) {
    s != [] && s[0] == c as int
  }

  /** An object is its members as a dictionary: no name twice, and each name's
      value. */
  ghost predicate DictOf(pairs: Fields, d: Fields) {
    NoRepeat(pairs) && Sorted(d) && forall k :: Get(d, k) == Get(pairs, k)
  }

  predicate NoRepeat(pairs: Fields) {
    match pairs
    case NoField => true
    case Field(k, _, tail) => Get(tail, k) == None && NoRepeat(tail)
  }

  ghost predicate SpellsNumber(s: Text, n: int, t: Text, rest: Text) {
    s == t + rest && SpellsWhole(t, n) && EndsHere(rest)
  }

  /** The text begins with a spelling of the value, and the rest follows. */
  ghost predicate Spells(s: Text, v: Json, rest: Text)
    decreases |s|, 0
  {
    match v
    case Null => s == Ascii("null") + rest
    case Bool(b) => s == Ascii(if b then "true" else "false") + rest
    case Int(n) => exists t :: SpellsNumber(s, n, t, rest)
    case Float(x) => s == x + rest && SpellsFloat(x) && EndsHere(rest)
    case Str(t) => Begins(s, '"') && Body(s[1..], t, rest)
    case Arr(items) =>
      Begins(s, '[') && exists next :: White(s[1..], next) && |next| < |s|
                                       && if items == NoItem then Begins(next, ']') && rest == next[1..] else SpellsItems(next, items, rest)
    case Obj(d) =>
      Begins(s, '{') && exists next, pairs ::
                          White(s[1..], next) && |next| < |s| && DictOf(pairs, d)
                          && if pairs == NoField then Begins(next, '}') && rest == next[1..] else SpellsFields(next, pairs, rest)
  }

  /** One or more values with commas between them, and the closing bracket. */
  ghost predicate SpellsItems(s: Text, items: Items, rest: Text)
    decreases |s|, 1
  {
    items.Item? && exists after, mark :: Spells(s, items.head, after) && White(after, mark) && |mark| < |s|
                                         && ItemsGoOn(|s|, mark, items.tail, rest)
  }

  ghost predicate ItemsGoOn(n: nat, mark: Text, tail: Items, rest: Text)
    requires |mark| < n
    decreases n, 0
  {
    if tail == NoItem then Begins(mark, ']') && rest == mark[1..]
    else Begins(mark, ',') && exists next :: White(mark[1..], next) && |next| < n && SpellsItems(next, tail, rest)
  }

  /** One or more members, and the closing brace. */
  ghost predicate SpellsFields(s: Text, pairs: Fields, rest: Text)
    decreases |s|, 1
  {
    pairs.Field? && Begins(s, '"')
    && exists after, colon, value ::
         && Body(s[1..], pairs.key, after) && White(after, colon) && Begins(colon, ':') && White(colon[1..], value) && |value| < |s|
         && exists end, mark :: Spells(value, pairs.value, end) && White(end, mark) && |mark| < |s| && FieldsGoOn(|s|, mark, pairs.tail, rest)
  }

  ghost predicate FieldsGoOn(n: nat, mark: Text, tail: Fields, rest: Text)
    requires |mark| < n
    decreases n, 0
  {
    if tail == NoField then Begins(mark, '}') && rest == mark[1..]
    else Begins(mark, ',') && exists next :: White(mark[1..], next) && |next| < n && SpellsFields(next, tail, rest)
  }

  lemma EndsIs(rest: Text)
    ensures EndsHere(rest) <==> EndsNumber(rest)
  {
    var c := Ascii("0123456789+-.eE");
    assert |c| == 15 && c[0] == 48 && c[1] == 49 && c[2] == 50 && c[3] == 51 && c[4] == 52 && c[5] == 53 && c[6] == 54 && c[7] == 55;
    assert c[8] == 56 && c[9] == 57 && c[10] == 43 && c[11] == 45 && c[12] == 46 && c[13] == 101 && c[14] == 69;
  }

  lemma {:induction false} PairsAre(pairs: Fields)
    ensures FromPairs(pairs).Some? <==> NoRepeat(pairs)
    ensures FromPairs(pairs).Some? ==> Sorted(FromPairs(pairs).value) && forall k :: Get(FromPairs(pairs).value, k) == Get(pairs, k)
  {
    if pairs.Field? {
      PairsAre(pairs.tail);
      if FromPairs(pairs.tail).Some? {
        var rest := FromPairs(pairs.tail).value;
        assert pairs.key in Keys(rest) <==> Get(pairs.tail, pairs.key) != None;
        if FromPairs(pairs).Some? {
          PutSorted(rest, pairs.key, pairs.value);
          forall k ensures Get(FromPairs(pairs).value, k) == Get(pairs, k) { GetPut(rest, pairs.key, pairs.value, k); }
        }
      }
    }
  }

  lemma DictIs(pairs: Fields, d: Fields)
    ensures DictOf(pairs, d) <==> FromPairs(pairs) == Some(d)
  {
    hide Sorted, Get, NoRepeat, FromPairs;
    PairsAre(pairs);
    if DictOf(pairs, d) { SameFields(d, FromPairs(pairs).value); }
  }

  // ----- words and numbers -----

  lemma WordsAre()
    ensures Ascii("null") == NULL && Ascii("true") == TRUE && Ascii("false") == FALSE
  {
    var n, t, f := Ascii("null"), Ascii("true"), Ascii("false");
    assert n[0] == 110 && n[1] == 117 && n[2] == 108 && n[3] == 108;
    assert t[0] == 116 && t[1] == 114 && t[2] == 117 && t[3] == 101;
    assert f[0] == 102 && f[1] == 97 && f[2] == 108 && f[3] == 115 && f[4] == 101;
  }

  lemma StartsIs(s: Text, p: Text)
    ensures StartsWith(s, p) <==> exists rest :: s == p + rest
    ensures forall rest :: s == p + rest ==> rest == s[|p|..]
  {
    if StartsWith(s, p) { assert s == p + s[|p|..]; }
  }

  /** What a value begins with tells which it is. */
  lemma WordIs(s: Text, v: Json, rest: Text)
    requires v.Null? || v.Bool?
    ensures Spells(s, v, rest) <==> ParseValue(s) == Ok(v, rest)
  {
    hide ParseChars, ParseObject, ParseArray, ParseNumber, FromPairs, StartsWith, Ascii;
    WordsAre();
    StartsIs(s, NULL);
    StartsIs(s, TRUE);
    StartsIs(s, FALSE);
    var p := if v.Null? then NULL else if v.b then TRUE else FALSE;
    if s == p + rest { assert s[0] == p[0] && StartsWith(s, p); }
    NumberOnly(s);
  }

  /** A number is all that is read as one. */
  lemma NumberOnly(s: Text)
    ensures ParseNumber(s).Ok? ==> ParseNumber(s).value.Int? || ParseNumber(s).value.Float?
  {
  }

  /** A number is read exactly as the grammar has it, where nothing follows that could
      go on with it. */
  lemma IntegerIs(s: Text, n: int, rest: Text)
    requires EndsHere(rest)
    ensures Spells(s, Int(n), rest) <==> ParseValue(s) == Ok(Int(n), rest)
  {
    hide SpellsWhole, Scan, EndsHere, IsIntLexeme, IntValue;
    EndsIs(rest);
    if t :| SpellsNumber(s, n, t, rest) {
      WholeTokens(t, n);
      NumberReads(t, rest);
    }
    if ParseValue(s) == Ok(Int(n), rest) {
      var t := TokenOf(s, Int(n), rest);
      WholeTokens(t, n);
      assert SpellsNumber(s, n, t, rest);
    }
  }

  lemma FloatIs(s: Text, x: Text, rest: Text)
    requires EndsHere(rest)
    ensures Spells(s, Float(x), rest) <==> ParseValue(s) == Ok(Float(x), rest)
  {
    hide SpellsFloat, Scan, EndsHere, IsFloatLexeme, IsIntLexeme;
    EndsIs(rest);
    FloatTokens(x);
    NotBoth(x);
    if Spells(s, Float(x), rest) { NumberReads(x, rest); }
    if ParseValue(s) == Ok(Float(x), rest) { var t := TokenOf(s, Float(x), rest); }
  }

  lemma NumberReads(t: Text, rest: Text)
    requires (IsIntLexeme(t) || IsFloatLexeme(t)) && EndsNumber(rest)
    ensures ParseValue(t + rest) == Ok(if IsIntLexeme(t) then Int(IntValue(t)) else Float(t), rest)
  {
    hide ParseValue, IntValue;
    LexemeChars(t);
    ScanStops(t, rest);
    var s := t + rest;
    assert s[0] == t[0];
    JsonTheorems.NumberStart(s);
    assert s[..|t|] == t && s[|t|..] == rest;
  }

  lemma NotBoth(t: Text)
    ensures IsFloatLexeme(t) ==> !IsIntLexeme(t)
  {
    hide Scan;
  }

  lemma TokenOf(s: Text, v: Json, rest: Text) returns (t: Text)
    requires EndsNumber(rest) && ParseValue(s) == Ok(v, rest) && (v.Int? || v.Float?)
    ensures s == t + rest
    ensures v.Int? ==> IsIntLexeme(t) && IntValue(t) == v.n
    ensures v.Float? ==> t == v.lexeme && IsFloatLexeme(t)
  {
    hide ParseChars, ParseObject, ParseArray, FromPairs, Scan, IntValue, StartsWith;
    var token := Scan(s);
    t := s[..token.total];
    assert s == t + s[token.total..];
    ScanStops(t, rest);
  }

  lemma StringIs(s: Text, t: Text, rest: Text)
    ensures Spells(s, Str(t), rest) <==> ParseValue(s) == Ok(Str(t), rest)
  {
    hide ParseObject, ParseArray, ParseNumber, FromPairs, StartsWith, ParseChars, Body;
    NumberOnly(s);
    if s != [] { BodyIs(s[1..], t, rest); }
  }

  // ----- arrays and objects -----

  /** What a value begins with can be seen. */
  lemma SpellsSeen(s: Text, v: Json, rest: Text)
    requires Spells(s, v, rest)
    ensures s != [] && Visible(s) && s[0] != ']' as int && s[0] != '}' as int
  {
    hide SpellsItems, SpellsFields, Body, White, DictOf, EndsHere;
    WordsAre();
    BlanksAre(if s == [] then 0 else s[0]);
    match v
    case Int(n) =>
      var t :| SpellsNumber(s, n, t, rest);
      WholeTokens(t, n);
      LexemeChars(t);
      assert s[0] == t[0];
    case Float(x) =>
      FloatTokens(x);
      LexemeChars(x);
      assert s[0] == x[0];
    case _ =>
  }

  lemma MarkSeen(mark: Text)
    requires Begins(mark, ']') || Begins(mark, ',') || Begins(mark, '}') || Begins(mark, ':') || Begins(mark, '"')
    ensures Visible(mark)
  {
    BlanksAre(mark[0]);
  }

  /** After a value comes white space or a mark, which goes on with no number. */
  lemma MarkEnds(after: Text)
    requires var mark := SkipWs(after); Begins(mark, ']') || Begins(mark, ',') || Begins(mark, '}')
    ensures EndsHere(after)
  {
    EndsIs(after);
  }

  lemma ItemsSeen(s: Text, items: Items, rest: Text)
    requires SpellsItems(s, items, rest)
    ensures s != [] && Visible(s) && s[0] != ']' as int
  {
    hide Spells, White, ItemsGoOn, Visible;
    var after, mark :| Spells(s, items.head, after) && White(after, mark) && |mark| < |s| && ItemsGoOn(|s|, mark, items.tail, rest);
    SpellsSeen(s, items.head, after);
  }

  /** The list of values in an array. */
  lemma {:induction false} ItemsAre(s: Text, items: Items, rest: Text)
    ensures SpellsItems(s, items, rest) <==> items.Item? && ParseItem(s) == Ok(items, rest)
    decreases |s|, 4
  {
    hide Spells, White, ItemsGoOn, Visible, ParseValue, ParseItems, EndsHere, SkipWs;
    if SpellsItems(s, items, rest) {
      var after, mark :| Spells(s, items.head, after) && White(after, mark) && |mark| < |s| && ItemsGoOn(|s|, mark, items.tail, rest);
      GoOnSeen(|s|, mark, items.tail, rest);
      SkipIs(after, mark);
      MarkEnds(after);
      ValueIs(s, items.head, after);
      GoOnIs(|s|, after, items.tail, rest);
    }
    if items.Item? && ParseItem(s) == Ok(items, rest) {
      var after := ParseValue(s).rest;
      var mark := SkipWs(after);
      ItemsMarked(after, items.tail, rest);
      MarkEnds(after);
      SkipIs(after, mark);
      ValueIs(s, items.head, after);
      GoOnIs(|s|, after, items.tail, rest);
    }
  }

  lemma GoOnSeen(n: nat, mark: Text, tail: Items, rest: Text)
    requires |mark| < n && ItemsGoOn(n, mark, tail, rest)
    ensures (Begins(mark, ']') || Begins(mark, ',')) && Visible(mark)
  {
    hide Visible, SpellsItems, White;
    MarkSeen(mark);
  }

  lemma ItemsMarked(after: Text, tail: Items, rest: Text)
    requires ParseItems(after) == Ok(tail, rest)
    ensures Begins(SkipWs(after), ']') || Begins(SkipWs(after), ',')
  {
    hide ParseItem, SkipWs;
  }

  lemma {:induction false} GoOnIs(n: nat, after: Text, tail: Items, rest: Text)
    requires |after| < n
    ensures ItemsGoOn(n, SkipWs(after), tail, rest) <==> ParseItems(after) == Ok(tail, rest)
    decreases n, 0
  {
    hide White, Visible, ParseItem, SpellsItems, SkipWs;
    var mark := SkipWs(after);
    if Begins(mark, ',') {
      var next := SkipWs(mark[1..]);
      SkipIs(mark[1..], next);
      ItemsAre(next, tail, rest);
      if tail != NoItem && ItemsGoOn(n, mark, tail, rest) {
        var next' :| White(mark[1..], next') && |next'| < n && SpellsItems(next', tail, rest);
        ItemsSeen(next', tail, rest);
        SkipIs(mark[1..], next');
      }
      ItemFirst(next, tail, rest);
    }
  }

  lemma ItemFirst(s: Text, items: Items, rest: Text)
    ensures ParseItem(s) == Ok(items, rest) ==> items.Item?
  {
    hide ParseValue, ParseItems;
  }

  lemma {:induction false} ArrayIs(s: Text, items: Items, rest: Text)
    ensures Spells(s, Arr(items), rest) <==> ParseValue(s) == Ok(Arr(items), rest)
    decreases |s|, 2
  {
    hide ParseObject, ParseNumber, FromPairs, StartsWith, ParseChars, ParseItem, SpellsItems, White, Visible, SkipWs;
    NumberOnly(s);
    if Begins(s, '[') {
      var next := SkipWs(s[1..]);
      SkipIs(s[1..], next);
      ItemsAre(next, items, rest);
      ItemFirst(next, items, rest);
      if next' :| White(s[1..], next') && |next'| < |s|
                  && if items == NoItem then Begins(next', ']') && rest == next'[1..] else SpellsItems(next', items, rest) {
        if items == NoItem { MarkSeen(next'); } else { ItemsSeen(next', items, rest); }
        SkipIs(s[1..], next');
      }
      if items != NoItem && SpellsItems(next, items, rest) { ItemsSeen(next, items, rest); }
    }
  }

  /** A value is read exactly as the grammar has it. */
  lemma {:induction false} ValueIs(s: Text, v: Json, rest: Text)
    requires EndsHere(rest)
    ensures Spells(s, v, rest) <==> ParseValue(s) == Ok(v, rest)
    decreases |s|, 3
  {
    hide Spells, ParseValue, EndsHere;
    match v
    case Null => WordIs(s, v, rest);
    case Bool(_) => WordIs(s, v, rest);
    case Int(n) => IntegerIs(s, n, rest);
    case Float(x) => FloatIs(s, x, rest);
    case Str(t) => StringIs(s, t, rest);
    case Arr(items) => ArrayIs(s, items, rest);
    case Obj(d) => ObjectIs(s, d, rest);
  }

  lemma {:induction false} ObjectIs(s: Text, d: Fields, rest: Text)
    ensures Spells(s, Obj(d), rest) <==> ParseValue(s) == Ok(Obj(d), rest)
    decreases |s|, 2
  {
    hide ParseArray, ParseNumber, StartsWith, ParseChars, ParseField, SpellsFields, White, Visible, SkipWs, FromPairs, DictOf;
    NumberOnly(s);
    if Begins(s, '{') {
      var next := SkipWs(s[1..]);
      SkipIs(s[1..], next);
      forall pairs ensures DictOf(pairs, d) <==> FromPairs(pairs) == Some(d) { DictIs(pairs, d); }
      if next', pairs :| White(s[1..], next') && |next'| < |s| && DictOf(pairs, d)
                         && if pairs == NoField then Begins(next', '}') && rest == next'[1..] else SpellsFields(next', pairs, rest) {
        if pairs == NoField { MarkSeen(next'); } else { FieldsSeen(next', pairs, rest); }
        SkipIs(s[1..], next');
        FieldsAre(next, pairs, rest);
      }
      if ParseValue(s) == Ok(Obj(d), rest) {
        var pairs := ParseObject(s[1..]).value;
        FieldsAre(next, pairs, rest);
        FieldFirst(next, pairs, rest);
        assert DictOf(pairs, d);
      }
    }
  }

  lemma FieldFirst(s: Text, pairs: Fields, rest: Text)
    ensures ParseField(s) == Ok(pairs, rest) ==> pairs.Field?
  {
    hide ParseChars, ParseValue, ParseFields, SkipWs;
    if ParseField(s) == Ok(pairs, rest) {
      var key := ParseChars(s[1..]);
      var colon := SkipWs(key.rest);
      FieldValueFirst(key.value, SkipWs(colon[1..]));
      assert ParseField(s) == ParseFieldValue(key.value, SkipWs(colon[1..]));
    }
  }

  lemma FieldValueFirst(k: Text, s: Text)
    ensures ParseFieldValue(k, s).Ok? ==> ParseFieldValue(k, s).value.Field?
  {
    hide ParseValue, ParseFields;
  }

  lemma FieldsSeen(s: Text, pairs: Fields, rest: Text)
    requires SpellsFields(s, pairs, rest)
    ensures s != [] && Visible(s) && s[0] == '"' as int
  {
    hide Spells, White, FieldsGoOn, Visible, Body;
    MarkSeen(s);
  }

  /** One member: its name, the colon, and the value with what follows it. */
  ghost predicate Member(n: nat, s: Text, pairs: Fields, rest: Text, after: Text, colon: Text, value: Text, end: Text, mark: Text)
    requires pairs.Field? && Begins(s, '"')
  {
    && Body(s[1..], pairs.key, after) && White(after, colon) && Begins(colon, ':') && White(colon[1..], value) && |value| < n
    && Spells(value, pairs.value, end) && White(end, mark) && |mark| < n && FieldsGoOn(n, mark, pairs.tail, rest)
  }

  lemma MembersAre(s: Text, pairs: Fields, rest: Text)
    ensures SpellsFields(s, pairs, rest)
            <==> pairs.Field? && Begins(s, '"') && exists after, colon, value, end, mark :: Member(|s|, s, pairs, rest, after, colon, value, end, mark)
  {
    hide Spells, White, FieldsGoOn, Body;
    if pairs.Field? && Begins(s, '"') {
      if after, colon, value, end, mark :| Member(|s|, s, pairs, rest, after, colon, value, end, mark) {
        assert Spells(value, pairs.value, end) && White(end, mark) && |mark| < |s| && FieldsGoOn(|s|, mark, pairs.tail, rest);
      }
      if SpellsFields(s, pairs, rest) {
        var after, colon, value :|
          && Body(s[1..], pairs.key, after) && White(after, colon) && Begins(colon, ':') && White(colon[1..], value) && |value| < |s|
          && exists end, mark :: Spells(value, pairs.value, end) && White(end, mark) && |mark| < |s| && FieldsGoOn(|s|, mark, pairs.tail, rest);
        var end, mark :| Spells(value, pairs.value, end) && White(end, mark) && |mark| < |s| && FieldsGoOn(|s|, mark, pairs.tail, rest);
        assert Member(|s|, s, pairs, rest, after, colon, value, end, mark);
      }
    }
  }

  /** The list of members in an object. */
  lemma {:induction false} FieldsAre(s: Text, pairs: Fields, rest: Text)
    ensures SpellsFields(s, pairs, rest) <==> pairs.Field? && ParseField(s) == Ok(pairs, rest)
    decreases |s|, 4
  {
    hide SpellsFields, Member, ParseField;
    MembersAre(s, pairs, rest);
    if pairs.Field? && Begins(s, '"') {
      if after, colon, value, end, mark :| Member(|s|, s, pairs, rest, after, colon, value, end, mark) {
        MemberReads(s, pairs, rest, after, colon, value, end, mark);
      }
      if ParseField(s) == Ok(pairs, rest) { var after, colon, value, end, mark := ReadMember(s, pairs, rest); }
    }
    QuoteFirst(s, pairs, rest);
  }

  lemma QuoteFirst(s: Text, pairs: Fields, rest: Text)
    ensures ParseField(s) == Ok(pairs, rest) ==> Begins(s, '"')
  {
    hide ParseChars, ParseValue, ParseFields, SkipWs;
  }

  lemma {:induction false} MemberReads(s: Text, pairs: Fields, rest: Text, after: Text, colon: Text, value: Text, end: Text, mark: Text)
    requires pairs.Field? && Begins(s, '"') && Member(|s|, s, pairs, rest, after, colon, value, end, mark)
    ensures ParseField(s) == Ok(pairs, rest)
    decreases |s|, 3
  {
    hide Spells, White, FieldsGoOn, Visible, ParseValue, ParseFields, ParseChars, EndsHere, SkipWs, Body;
    BodyIs(s[1..], pairs.key, after);
    MarkSeen(colon);
    SkipIs(after, colon);
    SpellsSeen(value, pairs.value, end);
    SkipIs(colon[1..], value);
    FieldsGoOnSeen(|s|, mark, pairs.tail, rest);
    SkipIs(end, mark);
    MarkEnds(end);
    assert |value| < |s|;
    ValueIs(value, pairs.value, end);
    FieldsGoOnIs(|s|, end, pairs.tail, rest);
  }

  lemma {:induction false} ReadMember(s: Text, pairs: Fields, rest: Text) returns (after: Text, colon: Text, value: Text, end: Text, mark: Text)
    requires pairs.Field? && Begins(s, '"') && ParseField(s) == Ok(pairs, rest)
    ensures Member(|s|, s, pairs, rest, after, colon, value, end, mark)
    decreases |s|, 3
  {
    hide Spells, White, FieldsGoOn, Visible, ParseValue, ParseFields, ParseChars, EndsHere, SkipWs, Body;
    after := ParseChars(s[1..]).rest;
    BodyIs(s[1..], pairs.key, after);
    colon := SkipWs(after);
    SkipIs(after, colon);
    value := SkipWs(colon[1..]);
    SkipIs(colon[1..], value);
    end := ParseValue(value).rest;
    mark := SkipWs(end);
    SkipIs(end, mark);
    FieldsMarked(end, pairs.tail, rest);
    MarkEnds(end);
    ValueIs(value, pairs.value, end);
    FieldsGoOnIs(|s|, end, pairs.tail, rest);
  }

  lemma FieldsGoOnSeen(n: nat, mark: Text, tail: Fields, rest: Text)
    requires |mark| < n && FieldsGoOn(n, mark, tail, rest)
    ensures (Begins(mark, '}') || Begins(mark, ',')) && Visible(mark)
  {
    hide Visible, SpellsFields, White;
    MarkSeen(mark);
  }

  lemma FieldsMarked(after: Text, tail: Fields, rest: Text)
    requires ParseFields(after) == Ok(tail, rest)
    ensures Begins(SkipWs(after), '}') || Begins(SkipWs(after), ',')
  {
    hide ParseField, SkipWs;
  }

  lemma {:induction false} FieldsGoOnIs(n: nat, after: Text, tail: Fields, rest: Text)
    requires |after| < n
    ensures FieldsGoOn(n, SkipWs(after), tail, rest) <==> ParseFields(after) == Ok(tail, rest)
    decreases n, 0
  {
    hide White, Visible, ParseField, SpellsFields, SkipWs;
    var mark := SkipWs(after);
    if Begins(mark, ',') {
      var next := SkipWs(mark[1..]);
      SkipIs(mark[1..], next);
      FieldsAre(next, tail, rest);
      if tail != NoField && FieldsGoOn(n, mark, tail, rest) {
        var next' :| White(mark[1..], next') && |next'| < n && SpellsFields(next', tail, rest);
        FieldsSeen(next', tail, rest);
        SkipIs(mark[1..], next');
      }
      FieldFirst(next, tail, rest);
    }
  }

  // ----- documents -----

  /** A JSON text: one value with white space around it (section 2). */
  ghost predicate Writes(s: Text, v: Json) {
    exists start, end :: White(s, start) && Spells(start, v, end) && White(end, [])
  }

  /** The decoder reads a text as a document exactly when the text is a spelling of
      it. */
  lemma DocumentIs(s: Text, v: Json)
    ensures DecodeText(s) == Document(v) <==> Writes(s, v)
  {
    hide Spells, ParseValue, White, Visible, EndsHere, SkipWs;
    var start := SkipWs(s);
    SkipIs(s, start);
    NothingSeen();
    if DecodeText(s) == Document(v) {
      var end := ParseValue(start).rest;
      SkipIs(end, []);
      WhiteEnds(end);
      ValueIs(start, v, end);
    }
    if start', end :| White(s, start') && Spells(start', v, end) && White(end, []) {
      SpellsSeen(start', v, end);
      SkipIs(s, start');
      SkipIs(end, []);
      WhiteEnds(end);
      ValueIs(start', v, end);
    }
  }

  /** Bytes are read as a document exactly when they encode a spelling of it. */
  lemma BytesAre(bs: Bytes, v: Json)
    ensures DecodeJson(bs) == Document(v) <==> exists s :: AllScalar(s) && bs == Encode(s) && Writes(s, v)
  {
    hide Writes, DecodeText, Encode, AllScalar;
    forall s ensures Decode(bs) == Some(s) <==> AllScalar(s) && bs == Encode(s) { DecodeIs(bs, s); }
    forall s ensures DecodeText(s) == Document(v) <==> Writes(s, v) { DocumentIs(s, v); }
  }

  lemma NothingSeen()
    ensures Visible([])
  {
  }

  lemma WhiteEnds(end: Text)
    requires SkipWs(end) == []
    ensures EndsHere(end)
  {
    EndsIs(end);
  }

  // ----- what is refused -----

  /** A constant that is no JSON is refused wherever a value is read. */
  lemma ConstantsRefused(rest: Text)
    ensures ParseValue(Ascii("NaN") + rest) == Rejected
    ensures ParseValue(Ascii("Infinity") + rest) == Rejected
    ensures ParseValue(Ascii("-Infinity") + rest) == Rejected
  {
    var a, b, c := Ascii("NaN"), Ascii("Infinity"), Ascii("-Infinity");
    assert a[0] == 78 && a[1] == 97 && a[2] == 78;
    assert b[0] == 73 && b[1] == 110 && b[2] == 102 && b[3] == 105 && b[4] == 110 && b[5] == 105 && b[6] == 116 && b[7] == 121;
    assert c[0] == 45 && c[1] == 73 && c[2] == 110 && c[3] == 102 && c[4] == 105 && c[5] == 110 && c[6] == 105 && c[7] == 116 && c[8] == 121;
    ConstantRefused(a + rest);
    ConstantRefused(b + rest);
    ConstantRefused(c + rest);
  }

  lemma ConstantRefused(s: Text)
    requires StartsWith(s, [78, 97, 78]) || StartsWith(s, [73, 110, 102, 105, 110, 105, 116, 121])
             || StartsWith(s, [45, 73, 110, 102, 105, 110, 105, 116, 121])
    ensures ParseValue(s) == Rejected
  {
    hide ParseChars, ParseObject, ParseArray, FromPairs;
    assert s[0] == 78 || s[0] == 73 || (s[0] == 45 && s[1] == 73);
    assert NULL[0] == 110 && TRUE[0] == 116 && FALSE[0] == 102;
    assert !StartsWith(s, NULL) && !StartsWith(s, TRUE) && !StartsWith(s, FALSE);
    if s[0] == 45 { assert s[1..][0] == s[1]; }
    assert Scan(s).NoToken?;
  }

  /** An object that names a member twice is refused when it ends. */
  lemma RepeatsRefused(s: Text, next: Text, pairs: Fields, rest: Text)
    requires Begins(s, '{') && White(s[1..], next) && pairs.Field? && SpellsFields(next, pairs, rest) && !NoRepeat(pairs)
    ensures ParseValue(s) == Rejected
  {
    hide ParseArray, ParseNumber, StartsWith, ParseChars, ParseField, SpellsFields, White, Visible, SkipWs, FromPairs, NoRepeat;
    FieldsSeen(next, pairs, rest);
    SkipIs(s[1..], next);
    FieldsAre(next, pairs, rest);
    PairsAre(pairs);
  }

  // ----- what is written -----

  function Commas(ts: seq<Text>): Text {
    if ts == [] then [] else if |ts| == 1 then ts[0] else ts[0] + Ascii(",") + Commas(ts[1..])
  }

  function ItemTexts(items: Items): seq<Text> {
    match items
    case NoItem => []
    case Item(v, tail) => [EncodeText(v)] + ItemTexts(tail)
  }

  function FieldTexts(fields: Fields): seq<Text> {
    match fields
    case NoField => []
    case Field(k, v, tail) => [Ascii("\"") + EncodeChars(k) + Ascii(":") + EncodeText(v)] + FieldTexts(tail)
  }

  /** The characters that are escaped, and how: a quote and a backslash by a
      backslash, the control characters by their letter or their code in lower
      case; nothing else is. */
  lemma EscapesWritten(c: Code)
    ensures EscapeCode(c) ==
            if c == '"' as int then Ascii("\\\"") else if c == '\\' as int then Ascii("\\\\")
            else if c == 8 then Ascii("\\b") else if c == 9 then Ascii("\\t") else if c == 10 then Ascii("\\n")
            else if c == 12 then Ascii("\\f") else if c == 13 then Ascii("\\r")
            else if c < 32 then Ascii("\\u00") + [Ascii("0123456789abcdef")[c / 16], Ascii("0123456789abcdef")[c % 16]]
            else [c]
  {
    TwoChars();
    if c < 32 { HexDigits(c / 16); HexDigits(c % 16); }
  }

  lemma TwoChars()
    ensures Ascii("\\\"") == [92, 34] && Ascii("\\\\") == [92, 92] && Ascii("\\b") == [92, 98] && Ascii("\\t") == [92, 116]
    ensures Ascii("\\n") == [92, 110] && Ascii("\\f") == [92, 102] && Ascii("\\r") == [92, 114] && Ascii("\\u00") == [92, 117, 48, 48]
  {
    var a, b, c, d := Ascii("\\\""), Ascii("\\\\"), Ascii("\\b"), Ascii("\\t");
    var e, f, g, h := Ascii("\\n"), Ascii("\\f"), Ascii("\\r"), Ascii("\\u00");
    assert a[0] == 92 && a[1] == 34 && b[0] == 92 && b[1] == 92 && c[0] == 92 && c[1] == 98 && d[0] == 92 && d[1] == 116;
    assert e[0] == 92 && e[1] == 110 && f[0] == 92 && f[1] == 102 && g[0] == 92 && g[1] == 114;
    assert h[0] == 92 && h[1] == 117 && h[2] == 48 && h[3] == 48;
  }

  lemma HexDigits(n: int)
    requires 0 <= n < 16
    ensures Ascii("0123456789abcdef")[n] == HexDigit(n)
  {
    var h := Ascii("0123456789abcdef");
    assert h[0] == 48 && h[1] == 49 && h[2] == 50 && h[3] == 51 && h[4] == 52 && h[5] == 53 && h[6] == 54 && h[7] == 55;
    assert h[8] == 56 && h[9] == 57 && h[10] == 97 && h[11] == 98 && h[12] == 99 && h[13] == 100 && h[14] == 101 && h[15] == 102;
  }

  /** A document is written without white space, its lists and members with single
      commas, and a member's name, a colon and its value in the order of the
      names. */
  lemma TextWritten(v: Json)
    ensures EncodeText(v) == match v
                             case Null => Ascii("null")
                             case Bool(b) => Ascii(if b then "true" else "false")
                             case Int(n) => EncodeInt(n)
                             case Float(x) => x
                             case Str(t) => Ascii("\"") + EncodeChars(t)
                             case Arr(items) => Ascii("[") + Commas(ItemTexts(items)) + Ascii("]")
                             case Obj(fields) => Ascii("{") + Commas(FieldTexts(fields)) + Ascii("}")
  {
    hide EncodeChars, Ascii, Commas, ItemTexts, FieldTexts, EncodeItems, EncodeFields;
    WordsAre();
    MarksAre();
    match v
    case Arr(NoItem) => NothingBetween();
    case Obj(NoField) => NothingBetween();
    case Arr(Item(h, tail)) =>
      ItemsWritten(h, tail);
      assert EncodeText(v) == [91] + (EncodeText(h) + EncodeItems(tail));
    case Obj(Field(k, h, tail)) =>
      FieldsWritten(k, h, tail);
      assert EncodeText(v) == [123] + (EncodeStr(k) + [58] + EncodeText(h) + EncodeFields(tail));
    case _ =>
  }

  lemma NothingBetween()
    ensures Commas(ItemTexts(NoItem)) == [] && Commas(FieldTexts(NoField)) == []
  {
  }

  lemma MarksAre()
    ensures Ascii("[") == [91] && Ascii("]") == [93] && Ascii("{") == [123] && Ascii("}") == [125] && Ascii(",") == [44] && Ascii(":") == [58]
    ensures Ascii("\"") == [34]
  {
    assert Ascii("[")[0] == 91 && Ascii("]")[0] == 93 && Ascii("{")[0] == 123 && Ascii("}")[0] == 125 && Ascii(",")[0] == 44;
    assert Ascii(":")[0] == 58 && Ascii("\"")[0] == 34;
  }

  lemma CommasMore(t: Text, ts: seq<Text>)
    ensures Commas([t] + ts) == if ts == [] then t else t + Ascii(",") + Commas(ts)
  {
    hide Ascii;
    assert ([t] + ts)[1..] == ts;
  }

  lemma {:induction false} ItemsWritten(v: Json, tail: Items)
    ensures EncodeText(v) + EncodeItems(tail) == Commas(ItemTexts(Item(v, tail))) + Ascii("]")
    decreases tail
  {
    hide EncodeText, Ascii, Commas;
    MarksAre();
    var (t, ts) := (EncodeText(v), ItemTexts(tail));
    CommasMore(t, ts);
    if tail.Item? {
      ItemsWritten(tail.head, tail.tail);
      assert t + ([44] + (Commas(ts) + [93])) == t + [44] + Commas(ts) + [93];
      assert EncodeItems(tail) == [44] + (EncodeText(tail.head) + EncodeItems(tail.tail));
    }
  }

  lemma {:induction false} FieldsWritten(k: Text, v: Json, tail: Fields)
    ensures EncodeStr(k) + [58] + EncodeText(v) + EncodeFields(tail) == Commas(FieldTexts(Field(k, v, tail))) + Ascii("}")
    decreases tail
  {
    hide EncodeText, Ascii, EncodeChars, Commas;
    MarksAre();
    var (t, ts) := (EncodeStr(k) + [58] + EncodeText(v), FieldTexts(tail));
    CommasMore(t, ts);
    if tail.Field? {
      FieldsWritten(tail.key, tail.value, tail.tail);
      assert t + ([44] + (Commas(ts) + [125])) == t + [44] + Commas(ts) + [125];
      assert EncodeFields(tail) == [44] + (EncodeStr(tail.key) + [58] + EncodeText(tail.value) + EncodeFields(tail.tail));
    }
  }
}
