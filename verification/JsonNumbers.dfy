/** The number tokens of JSON (RFC 8259, section 6) as Python's scanner reads
    them: a sign, an integer part, and optional fraction and exponent, each
    taken greedily. */
module JsonNumbers {
  import opened Utf8

  predicate Digit(c: Code) {
    48 <= c <= 57
  }

  /** The characters a number token may contain: digits and `+ - . E e`. */
  predicate NumberChar(c: Code) {
    Digit(c) || c == 43 || c == 45 || c == 46 || c == 69 || c == 101
  }

  predicate AllNumberChars(s: Text) {
    forall i | 0 <= i < |s| :: NumberChar(s[i])
  }

  /** `s` cannot continue a number token. */
  predicate EndsNumber(s: Text) {
    s == [] || !NumberChar(s[0])
  }

  function DigitsLen(s: Text): (n: nat)
    ensures n <= |s|
    ensures forall i | 0 <= i < n :: Digit(s[i])
  {
    if s == [] || !Digit(s[0]) then 0 else 1 + DigitsLen(s[1..])
  }

  function SignLen(s: Text): (n: nat)
    ensures n <= |s|
  {
    if s != [] && s[0] == 45 then 1 else 0
  }

  /** Zero when no integer part starts here; a leading zero stands alone. */
  function IntLen(s: Text): (n: nat)
    ensures n <= |s|
    ensures forall i | 0 <= i < n :: Digit(s[i])
  {
    if s != [] && s[0] == 48 then 1 else DigitsLen(s)
  }

  function FracLen(s: Text): (n: nat)
    ensures n <= |s|
  {
    if s != [] && s[0] == 46 && DigitsLen(s[1..]) > 0 then 1 + DigitsLen(s[1..]) else 0
  }

  function ExpMark(s: Text): (n: nat)
    ensures n <= |s|
  {
    if s == [] || (s[0] != 69 && s[0] != 101) then 0
    else if |s| > 1 && (s[1] == 43 || s[1] == 45) then 2
    else 1
  }

  function ExpLen(s: Text): (n: nat)
    ensures n <= |s|
  {
    var mark := ExpMark(s);
    if mark > 0 && DigitsLen(s[mark..]) > 0 then mark + DigitsLen(s[mark..]) else 0
  }

  /** Fraction and exponent together. */
  function TailLen(s: Text): (n: nat)
    ensures n <= |s|
  {
    FracLen(s) + ExpLen(s[FracLen(s)..])
  }

  /** Lengths of the integer form and of the whole token at the head of `s`. */
  datatype Token = NoToken | Token(whole: nat, total: nat)

  function ScanUnsigned(s: Text): (t: Token)
    ensures t.Token? ==> 0 < t.whole <= t.total <= |s|
  {
    var b := IntLen(s);
    if b == 0 then NoToken else Token(b, b + TailLen(s[b..]))
  }

  function Scan(s: Text): (t: Token)
    ensures t.Token? ==> 0 < t.whole <= t.total <= |s|
  {
    var a := SignLen(s);
    match ScanUnsigned(s[a..])
    case NoToken => NoToken
    case Token(whole, total) => Token(a + whole, a + total)
  }

  predicate IsIntLexeme(s: Text) {
    Scan(s) == Token(|s|, |s|)
  }

  predicate IsFloatLexeme(s: Text) {
    var t := Scan(s);
    t.Token? && t.whole < t.total == |s|
  }

  /** The number a run of digits denotes. */
  function Value(ds: Text): (n: int) {
    if ds == [] then 0
    else var last: int := ds[|ds| - 1]; 10 * Value(ds[..|ds| - 1]) + last - 48
  }

  /** Python's int() of an integer token; "-0" is 0. */
  function IntValue(s: Text): (n: int) {
    if SignLen(s) == 1 then -Value(s[1..]) else Value(s)
  }

  function Decimal(n: nat): (ds: Text)
    ensures ds != [] && forall i | 0 <= i < |ds| :: Digit(ds[i])
  {
    if n < 10 then [48 + n] else Decimal(n / 10) + [48 + n % 10]
  }

  /** int.__repr__ */
  function EncodeInt(n: int): (s: Text)
  {
    if n < 0 then [45] + Decimal(-n) else Decimal(n)
  }

  lemma {:induction false} ValueOfDecimal(n: nat)
    ensures Value(Decimal(n)) == n
    ensures Decimal(n)[0] == 48 <==> n == 0
  {
    if n >= 10 {
      ValueOfDecimal(n / 10);
      var ds := Decimal(n);
      assert ds[..|ds| - 1] == Decimal(n / 10);
    } else {
      assert Decimal(n)[..0] == [];
    }
  }

  lemma {:induction false} AllDigits(s: Text)
    requires forall i | 0 <= i < |s| :: Digit(s[i])
    ensures DigitsLen(s) == |s|
  {
    if s != [] { AllDigits(s[1..]); }
  }

  lemma EncodedIntIsLexeme(n: int)
    ensures IsIntLexeme(EncodeInt(n)) && IntValue(EncodeInt(n)) == n
  {
    var s := EncodeInt(n);
    var ds := Decimal(if n < 0 then -n else n);
    ValueOfDecimal(if n < 0 then -n else n);
    AllDigits(ds);
    assert s[SignLen(s)..] == ds;
    if ds[0] == 48 { assert ds == [48]; }
    assert s[|s|..] == [];
  }

  lemma {:induction false} DigitsLenStops(x: Text, rest: Text)
    requires EndsNumber(rest)
    ensures DigitsLen(x + rest) == DigitsLen(x)
  {
    if x == [] {
      assert x + rest == rest;
    } else {
      DigitsLenStops(x[1..], rest);
      assert (x + rest)[1..] == x[1..] + rest;
    }
  }

  lemma FracLenStops(x: Text, rest: Text)
    requires EndsNumber(rest)
    ensures FracLen(x + rest) == FracLen(x)
  {
    if x == [] {
      assert x + rest == rest;
    } else {
      assert (x + rest)[1..] == x[1..] + rest;
      DigitsLenStops(x[1..], rest);
    }
  }

  lemma ExpLenStops(x: Text, rest: Text)
    requires EndsNumber(rest)
    ensures ExpLen(x + rest) == ExpLen(x)
  {
    if x == [] {
      assert x + rest == rest;
    } else {
      var mark := ExpMark(x);
      assert ExpMark(x + rest) == mark;
      assert (x + rest)[mark..] == x[mark..] + rest;
      DigitsLenStops(x[mark..], rest);
    }
  }

  lemma TailLenStops(x: Text, rest: Text)
    requires EndsNumber(rest)
    ensures TailLen(x + rest) == TailLen(x)
  {
    FracLenStops(x, rest);
    var c := FracLen(x);
    assert (x + rest)[c..] == x[c..] + rest;
    ExpLenStops(x[c..], rest);
  }

  lemma IntLenStops(x: Text, rest: Text)
    requires EndsNumber(rest)
    ensures IntLen(x + rest) == IntLen(x)
  {
    if x == [] { assert x + rest == rest; }
    DigitsLenStops(x, rest);
  }

  lemma ScanUnsignedStops(x: Text, rest: Text)
    requires EndsNumber(rest)
    ensures ScanUnsigned(x + rest) == ScanUnsigned(x)
  {
    IntLenStops(x, rest);
    var b := IntLen(x);
    assert (x + rest)[b..] == x[b..] + rest;
    TailLenStops(x[b..], rest);
  }

  /** What follows a token does not change how it is read. */
  lemma ScanStops(x: Text, rest: Text)
    requires EndsNumber(rest)
    ensures Scan(x + rest) == Scan(x)
  {
    hide ScanUnsigned;
    var a := SignLen(x);
    if x == [] { assert x + rest == rest; }
    assert (x + rest)[a..] == x[a..] + rest;
    ScanUnsignedStops(x[a..], rest);
  }

  lemma FracChars(s: Text)
    ensures AllNumberChars(s[..FracLen(s)])
  {
    if FracLen(s) > 0 {
      assert forall i | 1 <= i < FracLen(s) :: s[i] == s[1..][i - 1];
    }
  }

  lemma ExpChars(s: Text)
    ensures AllNumberChars(s[..ExpLen(s)])
  {
    if ExpLen(s) > 0 {
      var mark := ExpMark(s);
      assert forall i | mark <= i < ExpLen(s) :: s[i] == s[mark..][i - mark];
    }
  }

  lemma TailChars(s: Text)
    requires TailLen(s) == |s|
    ensures AllNumberChars(s)
  {
    var c := FracLen(s);
    FracChars(s);
    ExpChars(s[c..]);
    assert s[c..][..|s| - c] == s[c..];
    assert forall i | c <= i < |s| :: s[i] == s[c..][i - c];
    assert forall i | 0 <= i < c :: s[i] == s[..c][i];
  }

  /** A whole token holds number characters only. */
  lemma LexemeChars(s: Text)
    requires IsIntLexeme(s) || IsFloatLexeme(s)
    ensures AllNumberChars(s)
  {
    hide TailLen, IntLen;
    var a := SignLen(s);
    var y := s[a..];
    var b := IntLen(y);
    TailChars(y[b..]);
    assert forall i | b <= i < |y| :: y[i] == y[b..][i - b];
    assert AllNumberChars(y);
    assert forall i | a <= i < |s| :: s[i] == y[i - a];
  }
}
