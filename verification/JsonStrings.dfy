/** The string tokens of JSON (RFC 8259, section 7): the escapes Python's
    `json.dumps(ensure_ascii=False)` writes and its strict scanner reads. */
module JsonStrings {
  import opened Utf8

  /** What is left of the input after reading a token, JSONDecodeError, or an
      error raised by one of the event store's own decoding hooks. */
  datatype Parsed<+T> = Ok(value: T, rest: Text) | Syntax | Rejected

  const QUOTE: Code := 34
  const BACKSLASH: Code := 92

  function HexDigit(n: int): (c: Code)
    requires 0 <= n < 16
  {
    if n < 10 then 48 + n else 87 + n
  }

  /** -1 when `c` is not a hexadecimal digit. */
  function HexValue(c: Code): (n: int)
    ensures -1 <= n < 16
  {
    var i: int := c;
    if 48 <= i <= 57 then i - 48
    else if 97 <= i <= 102 then i - 87
    else if 65 <= i <= 70 then i - 55
    else -1
  }

  /** The letter of a two-character escape, 0 when `c` has none. */
  function EscapeLetter(c: Code): (e: Code)
  {
    if c == QUOTE then QUOTE
    else if c == BACKSLASH then BACKSLASH
    else if c == 8 then 98
    else if c == 12 then 102
    else if c == 10 then 110
    else if c == 13 then 114
    else if c == 9 then 116
    else 0
  }

  function EscapeCode(c: Code): (s: Text)
    ensures 1 <= |s| <= 6
  {
    if EscapeLetter(c) != 0 then [BACKSLASH, EscapeLetter(c)]
    else if c < 32 then [BACKSLASH, 117, 48, 48, HexDigit(c / 16), HexDigit(c % 16)]
    else [c]
  }

  /** The body of a string token, closing quote included. */
  function EncodeChars(s: Text): (t: Text)
    ensures t != []
  {
    if s == [] then [QUOTE] else EscapeCode(s[0]) + EncodeChars(s[1..])
  }

  /** Four hexadecimal digits at the head of `s`, or -1. */
  function Hex4(s: Text): (n: int)
    ensures -1 <= n < 0x10000
    ensures n >= 0 ==> |s| >= 4
  {
    if |s| < 4 || HexValue(s[0]) < 0 || HexValue(s[1]) < 0 || HexValue(s[2]) < 0 || HexValue(s[3]) < 0 then -1
    else 4096 * HexValue(s[0]) + 256 * HexValue(s[1]) + 16 * HexValue(s[2]) + HexValue(s[3])
  }

  /** An escape introduced by a backslash-u whose digits start `s`; a high
      surrogate joins a low one that follows at once. */
  function ParseUnicode(s: Text): (r: Parsed<Code>)
    ensures r.Ok? ==> |r.rest| < |s|
  {
    var hi := Hex4(s);
    if hi < 0 then Syntax
    else if 0xD800 <= hi < 0xDC00 && |s| >= 6 && s[4] == BACKSLASH && s[5] == 117 then
      var lo := Hex4(s[6..]);
      if lo < 0 then Syntax
      else if 0xDC00 <= lo < 0xE000 then Ok(0x10000 + 1024 * (hi - 0xD800) + (lo - 0xDC00), s[10..])
      else Ok(hi, s[4..])
    else Ok(hi, s[4..])
  }

  function UnescapeLetter(e: Code): (c: int)
    ensures -1 <= c < 0x110000
  {
    if e == QUOTE then 34
    else if e == BACKSLASH then 92
    else if e == 47 then 47
    else if e == 98 then 8
    else if e == 102 then 12
    else if e == 110 then 10
    else if e == 114 then 13
    else if e == 116 then 9
    else -1
  }

  /** One character of a string body. */
  function ParseChar(s: Text): (r: Parsed<Code>)
    requires s != []
    ensures r.Ok? ==> |r.rest| < |s|
  {
    if s[0] < 32 then Syntax
    else if s[0] != BACKSLASH then Ok(s[0], s[1..])
    else if |s| < 2 then Syntax
    else if s[1] == 117 then ParseUnicode(s[2..])
    else if UnescapeLetter(s[1]) < 0 then Syntax
    else Ok(UnescapeLetter(s[1]), s[2..])
  }

  /** A string body up to and over its closing quote. */
  function ParseChars(s: Text): (r: Parsed<Text>)
    ensures r.Ok? ==> |r.rest| < |s|
    ensures !r.Rejected?
    decreases |s|
  {
    if s == [] then Syntax
    else if s[0] == QUOTE then Ok([], s[1..])
    else
      match ParseChar(s)
      case Ok(c, rest) =>
        (match ParseChars(rest)
         case Ok(t, rest') => Ok([c] + t, rest')
         case other => other)
      case _ => Syntax
  }

  lemma HexRoundTrip(n: int)
    requires 0 <= n < 16
    ensures HexValue(HexDigit(n)) == n
  {
  }

  lemma ControlEscape(c: Code, rest: Text)
    requires EscapeLetter(c) == 0 && c < 32
    ensures ParseChar(EscapeCode(c) + rest) == Ok(c, rest)
  {
    var digits: Text := [48, 48, HexDigit(c / 16), HexDigit(c % 16)];
    var s := EscapeCode(c) + rest;
    assert s[0] == BACKSLASH && s[1] == 117;
    assert s[2..] == digits + rest;
    HexRoundTrip(c / 16);
    HexRoundTrip(c % 16);
    assert Hex4(digits + rest) == c;
    assert (digits + rest)[4..] == rest;
  }

  lemma CharRoundTrip(c: Code, rest: Text)
    ensures ParseChar(EscapeCode(c) + rest) == Ok(c, rest)
    ensures (EscapeCode(c) + rest)[0] != QUOTE
  {
    var s := EscapeCode(c) + rest;
    if EscapeLetter(c) != 0 {
      assert s[0] == BACKSLASH && s[1] == EscapeLetter(c) && s[2..] == rest;
    } else if c < 32 {
      ControlEscape(c, rest);
    } else {
      assert s[0] == c && s[1..] == rest;
    }
  }

  lemma CharTorn(c: Code, n: nat)
    requires 0 < n < |EscapeCode(c)|
    ensures ParseChar(EscapeCode(c)[..n]) == Syntax
    ensures EscapeCode(c)[0] != QUOTE
  {
    var p := EscapeCode(c)[..n];
    assert p[0] == BACKSLASH;
    if n >= 2 {
      assert p[1] == 117;
      assert |p[2..]| < 4;
    }
  }

  lemma {:induction false} CharsRoundTrip(s: Text, rest: Text)
    ensures ParseChars(EncodeChars(s) + rest) == Ok(s, rest)
  {
    if s == [] {
      assert ([QUOTE] + rest)[1..] == rest;
    } else {
      var tail := EncodeChars(s[1..]) + rest;
      assert EncodeChars(s) + rest == EscapeCode(s[0]) + tail;
      CharRoundTrip(s[0], tail);
      CharsRoundTrip(s[1..], rest);
      assert s == [s[0]] + s[1..];
    }
  }

  /** A string body cut anywhere before its end is a syntax error. */
  lemma {:induction false} CharsTorn(s: Text, n: nat)
    requires n < |EncodeChars(s)|
    ensures ParseChars(EncodeChars(s)[..n]) == Syntax
  {
    if s != [] && n > 0 {
      var head := EscapeCode(s[0]);
      var tail := EncodeChars(s[1..]);
      if n < |head| {
        assert (head + tail)[..n] == head[..n];
        CharTorn(s[0], n);
      } else {
        assert (head + tail)[..n] == head + tail[..n - |head|];
        CharRoundTrip(s[0], tail[..n - |head|]);
        CharsTorn(s[1..], n - |head|);
      }
    }
  }

  /** No control character, in particular no newline, survives unescaped. */
  lemma {:induction false} NoControl(s: Text)
    ensures forall i | 0 <= i < |EncodeChars(s)| :: EncodeChars(s)[i] >= 32
    ensures AllScalar(s) ==> AllScalar(EncodeChars(s))
  {
    if s != [] { NoControl(s[1..]); }
  }
}
