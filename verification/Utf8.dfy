/** Text as Python sees it (code points, surrogates included) and its strict
    UTF-8 form: what `str.encode("utf-8")` writes and `bytes.decode("utf-8")`
    accepts. */
module Utf8 {

  type Byte = b: int | 0 <= b < 256
  type Code = c: int | 0 <= c < 0x110000
  type Bytes = seq<Byte>
  type Text = seq<Code>

  datatype Option<+T> = None | Some(value: T)

  /** str.isspace of one code point */
  predicate IsSpaceCode(n: int) {
    9 <= n <= 13 || 28 <= n <= 32 || n == 133 || n == 160 || n == 5760 || 8192 <= n <= 8202
    || n == 8232 || n == 8233 || n == 8239 || n == 8287 || n == 12288
  }

  /** A Dafny text as code points. */
  function Ascii(s: string): (t: Text)
    ensures |t| == |s|
  {
    seq(|s|, i requires 0 <= i < |s| => s[i] as int)
  }

  /** A code point that UTF-8 can carry. */
  predicate Scalar(c: Code) {
    c < 0xD800 || 0xE000 <= c
  }

  predicate AllScalar(s: Text) {
    forall i | 0 <= i < |s| :: Scalar(s[i])
  }

  function EncodeCode(c: Code): (bs: Bytes)
    requires Scalar(c)
    ensures 1 <= |bs| <= 4
  {
    if c < 0x80 then [c]
    else if c < 0x800 then [0xC0 + c / 64, 0x80 + c % 64]
    else if c < 0x10000 then [0xE0 + c / 4096, 0x80 + c / 64 % 64, 0x80 + c % 64]
    else [0xF0 + c / 262144, 0x80 + c / 4096 % 64, 0x80 + c / 64 % 64, 0x80 + c % 64]
  }

  function Encode(s: Text): (bs: Bytes)
    requires AllScalar(s)
  {
    if s == [] then [] else EncodeCode(s[0]) + Encode(s[1..])
  }

  predicate Continuation(b: Byte) {
    0x80 <= b < 0xC0
  }

  /** The six bits a continuation byte carries. */
  function Low(b: Byte): (low: int)
    requires Continuation(b)
  {
    b - 0x80
  }

  /** The first character of `bs` and its width; rejects truncated, overlong,
      surrogate and out-of-range forms. */
  function DecodeCode(bs: Bytes): (r: Option<(Code, nat)>)
    requires bs != []
    ensures r.Some? ==> 1 <= r.value.1 <= |bs|
  {
    var b: int := bs[0];
    if b < 0x80 then Some((b, 1))
    else if 0xC2 <= b < 0xE0 && |bs| >= 2 && Continuation(bs[1]) then
      Some((64 * (b - 0xC0) + Low(bs[1]), 2))
    else if 0xE0 <= b < 0xF0 && |bs| >= 3 && Continuation(bs[1]) && Continuation(bs[2]) then
      var c := 4096 * (b - 0xE0) + 64 * Low(bs[1]) + Low(bs[2]);
      if 0x800 <= c && Scalar(c) then Some((c, 3)) else None
    else if 0xF0 <= b < 0xF5 && |bs| >= 4 && Continuation(bs[1]) && Continuation(bs[2]) && Continuation(bs[3]) then
      var c := 262144 * (b - 0xF0) + 4096 * Low(bs[1]) + 64 * Low(bs[2]) + Low(bs[3]);
      if 0x10000 <= c < 0x110000 then Some((c, 4)) else None
    else None
  }

  /** None stands for UnicodeDecodeError. */
  function Decode(bs: Bytes): Option<Text> {
    if bs == [] then Some([])
    else
      match DecodeCode(bs)
      case None => None
      case Some((c, n)) =>
        match Decode(bs[n..])
        case None => None
        case Some(rest) => Some([c] + rest)
  }

  lemma DecodeEncodedCode(c: Code, rest: Bytes)
    requires Scalar(c)
    ensures DecodeCode(EncodeCode(c) + rest) == Some((c, |EncodeCode(c)|))
  {
    var bs := EncodeCode(c);
    var all := bs + rest;
    assert forall i | 0 <= i < |bs| :: all[i] == bs[i];
    SixBitDigits(c);
  }

  lemma SixBitDigits(c: int)
    requires 0 <= c
    ensures c == 64 * (c / 64) + c % 64
    ensures c == 4096 * (c / 4096) + 64 * (c / 64 % 64) + c % 64
    ensures c == 262144 * (c / 262144) + 4096 * (c / 4096 % 64) + 64 * (c / 64 % 64) + c % 64
  {
    QuotientOfQuotient(c, 64);
    QuotientOfQuotient(c, 4096);
  }

  lemma QuotientOfQuotient(c: int, d: int)
    requires 0 <= c && (d == 64 || d == 4096)
    ensures c / d / 64 == c / (64 * d)
  {
    var q := c / d;
    var r := q / 64;
    assert c == d * q + c % d && q == 64 * r + q % 64;
    if d == 64 {
      assert 4096 * r <= c < 4096 * r + 4096;
    } else {
      assert 262144 * r <= c < 262144 * r + 262144;
    }
  }

  /** A character cut short is never a character. */
  lemma TornCode(c: Code, n: nat)
    requires Scalar(c) && 0 < n < |EncodeCode(c)|
    ensures DecodeCode(EncodeCode(c)[..n]) == None
  {
  }

  lemma {:induction false} RoundTrip(s: Text)
    requires AllScalar(s)
    ensures Decode(Encode(s)) == Some(s)
  {
    if s != [] {
      var rest := Encode(s[1..]);
      DecodeEncodedCode(s[0], rest);
      assert (EncodeCode(s[0]) + rest)[|EncodeCode(s[0])|..] == rest;
      RoundTrip(s[1..]);
      assert s == [s[0]] + s[1..];
    }
  }

  lemma SixBits(h: int, a: int, b: int, c: int)
    requires 0 <= h && 0 <= a < 64 && 0 <= b < 64 && 0 <= c < 64
    ensures var n := 262144 * h + 4096 * a + 64 * b + c;
            n / 262144 == h && n / 4096 % 64 == a && n / 64 % 64 == b && n % 64 == c
  {
    var n := 262144 * h + 4096 * a + 64 * b + c;
    assert n / 64 == 4096 * h + 64 * a + b;
    assert n / 4096 == 64 * h + a;
  }

  lemma ThreeSixBits(a: int, b: int, c: int)
    requires 0 <= a && 0 <= b < 64 && 0 <= c < 64
    ensures var n := 4096 * a + 64 * b + c; n / 4096 == a && n / 64 % 64 == b && n % 64 == c
  {
    var n := 4096 * a + 64 * b + c;
    assert n / 64 == 64 * a + b;
  }

  /** Only the one encoding of a character is read as it. */
  lemma DecodedCode(bs: Bytes)
    requires bs != [] && DecodeCode(bs).Some?
    ensures var (c, n) := DecodeCode(bs).value;
            Scalar(c) && bs[..n] == EncodeCode(c)
  {
    var (c, n) := DecodeCode(bs).value;
    var b: int := bs[0];
    if n == 1 {
      assert bs[..1] == [bs[0]];
    } else if n == 2 {
      ThreeSixBits(0, b - 0xC0, Low(bs[1]));
      assert bs[..2] == [bs[0], bs[1]];
    } else if n == 3 {
      ThreeSixBits(b - 0xE0, Low(bs[1]), Low(bs[2]));
      assert bs[..3] == [bs[0], bs[1], bs[2]];
    } else {
      SixBits(b - 0xF0, Low(bs[1]), Low(bs[2]), Low(bs[3]));
      assert bs[..4] == [bs[0], bs[1], bs[2], bs[3]];
    }
  }

  /** Bytes are read as a text exactly when they are its encoding. */
  lemma {:induction false} DecodeIs(bs: Bytes, s: Text)
    ensures Decode(bs) == Some(s) <==> AllScalar(s) && bs == Encode(s)
    decreases |bs|
  {
    hide EncodeCode, DecodeCode;
    if AllScalar(s) && bs == Encode(s) { RoundTrip(s); }
    if bs != [] && Decode(bs) == Some(s) {
      var (c, n) := DecodeCode(bs).value;
      DecodedCode(bs);
      assert s == [c] + s[1..] && Decode(bs[n..]) == Some(s[1..]);
      DecodeIs(bs[n..], s[1..]);
      assert bs == bs[..n] + bs[n..];
    }
  }

  /** Cutting encoded text at any byte gives either undecodable bytes or the
      encoding of a prefix of the text. */
  lemma {:induction false} Torn(s: Text, n: nat)
    requires AllScalar(s) && n <= |Encode(s)|
    ensures var t := Decode(Encode(s)[..n]);
            t.Some? ==> |t.value| <= |s| && t.value == s[..|t.value|] && Encode(s)[..n] == Encode(t.value)
  {
    hide EncodeCode, DecodeCode;
    if s != [] && n > 0 {
      var head := EncodeCode(s[0]);
      var rest := Encode(s[1..]);
      if n < |head| {
        assert (head + rest)[..n] == head[..n];
        TornCode(s[0], n);
      } else {
        var m := n - |head|;
        assert (head + rest)[..n] == head + rest[..m];
        DecodeEncodedCode(s[0], rest[..m]);
        assert (head + rest[..m])[|head|..] == rest[..m];
        Torn(s[1..], m);
        var t := Decode(rest[..m]);
        if t.Some? {
          assert s[..|t.value| + 1] == [s[0]] + s[1..][..|t.value|];
          assert ([s[0]] + t.value)[1..] == t.value;
        }
      }
    }
  }

  /** An ASCII byte appears in the encoding exactly where its character does. */
  lemma {:induction false} AsciiByte(s: Text, b: Byte)
    requires AllScalar(s) && b < 0x80
    ensures b in Encode(s) <==> b in s
  {
    if s != [] {
      AsciiByte(s[1..], b);
      assert s == [s[0]] + s[1..];
      assert b in EncodeCode(s[0]) <==> b == s[0];
    }
  }
}
