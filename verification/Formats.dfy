/** The formats of names and hashes as the regular expressions they are given by. */
module Formats {
  import opened Utf8
  import opened Strings

  const UPPER := "ABCDEFGHIJKLMNOPQRSTUVWXYZ"
  const LOWER := "abcdefghijklmnopqrstuvwxyz"
  const DIGITS := "0123456789"

  /** [chars]{least,most} */
  datatype Piece = Piece(chars: string, least: nat, most: Option<nat>)

  predicate Fits(p: Piece, s: string) {
    p.least <= |s| && (p.most.Some? ==> |s| <= p.most.value) && forall i | 0 <= i < |s| :: s[i] in p.chars
  }

  /** re.fullmatch of the pieces one after the other. */
  ghost predicate FullMatch(pieces: seq<Piece>, s: string) {
    if pieces == [] then s == []
    else exists k | 0 <= k <= |s| :: Fits(pieces[0], s[..k]) && FullMatch(pieces[1..], s[k..])
  }

  function Once(chars: string): Piece {
    Piece(chars, 1, Some(1))
  }

  lemma OnePiece(p: Piece, s: string)
    ensures FullMatch([p], s) <==> Fits(p, s)
  {
    if Fits(p, s) { assert Fits([p][0], s[..|s|]) && FullMatch([p][1..], s[|s|..]); }
  }

  lemma OneFirst(chars: string, rest: seq<Piece>, s: string)
    ensures FullMatch([Once(chars)] + rest, s) <==> s != [] && s[0] in chars && FullMatch(rest, s[1..])
  {
    var pieces := [Once(chars)] + rest;
    assert pieces[1..] == rest;
    if s != [] && s[0] in chars && FullMatch(rest, s[1..]) {
      assert Fits(pieces[0], s[..1]) && FullMatch(pieces[1..], s[1..]);
    }
    if FullMatch(pieces, s) {
      var k :| 0 <= k <= |s| && Fits(pieces[0], s[..k]) && FullMatch(pieces[1..], s[k..]);
    }
  }

  /** The characters of an alphabet in order are those between its ends. */
  lemma Between(chars: string, c: char)
    requires chars != [] && forall i | 0 <= i < |chars| :: chars[i] as int == chars[0] as int + i
    ensures c in chars <==> chars[0] <= c <= chars[|chars| - 1]
  {
    if chars[0] <= c <= chars[|chars| - 1] { assert chars[c as int - chars[0] as int] == c; }
  }

  lemma Letters(c: char)
    ensures c in UPPER <==> 'A' <= c <= 'Z'
    ensures c in LOWER <==> 'a' <= c <= 'z'
    ensures c in DIGITS <==> '0' <= c <= '9'
  {
    Between(UPPER, c);
    Between(LOWER, c);
    Between(DIGITS, c);
  }

  function Spelt(text: string): seq<Piece> {
    if text == [] then [] else [Once([text[0]])] + Spelt(text[1..])
  }

  lemma {:induction false} TextFirst(text: string, rest: seq<Piece>, s: string)
    ensures FullMatch(Spelt(text) + rest, s) <==> text <= s && FullMatch(rest, s[|text|..])
  {
    if text == [] {
      assert Spelt(text) + rest == rest;
    } else {
      assert Spelt(text) + rest == [Once([text[0]])] + (Spelt(text[1..]) + rest);
      OneFirst([text[0]], Spelt(text[1..]) + rest, s);
      if s != [] && s[0] == text[0] {
        TextFirst(text[1..], rest, s[1..]);
        assert text <= s <==> text[1..] <= s[1..] by { assert text == [text[0]] + text[1..] && s == [s[0]] + s[1..]; }
        if text <= s { assert s[1..][|text[1..]|..] == s[|text|..]; }
      }
    }
  }

  const HEX := DIGITS + "abcdef"

  lemma HexDigits(c: char)
    ensures c in HEX <==> IsHex(c)
  {
    Between(DIGITS, c);
    Between("abcdef", c);
  }

  /** A commit hash is [0-9a-f]{40}. */
  lemma ShaIs(s: string)
    ensures IsSha(s) <==> FullMatch([Piece(HEX, 40, Some(40))], s)
  {
    hide FullMatch, IsHex;
    OnePiece(Piece(HEX, 40, Some(40)), s);
    forall c: char ensures c in HEX <==> IsHex(c) { HexDigits(c); }
  }

  /** A file name is [A-Za-z0-9][A-Za-z0-9_.-]{0,127}. */
  lemma IdentifierIs(s: string)
    ensures IsIdentifier(s) <==> FullMatch([Once(UPPER + LOWER + DIGITS), Piece(UPPER + LOWER + DIGITS + "_.-", 0, Some(127))], s)
  {
    var (first, rest) := (UPPER + LOWER + DIGITS, Piece(UPPER + LOWER + DIGITS + "_.-", 0, Some(127)));
    assert [Once(first)] + [rest] == [Once(first), rest];
    OneFirst(first, [rest], s);
    forall c: char ensures Alnum(c) <==> c in first { Letters(c); }
    if s != [] {
      OnePiece(rest, s[1..]);
      assert forall i | 1 <= i < |s| :: s[i] == s[1..][i - 1];
    }
  }

  /** A requirement's id is REQ-[0-9]{3,}. */
  lemma RequirementIs(s: string)
    ensures IsRequirement(s) <==> FullMatch(Spelt("REQ-") + [Piece(DIGITS, 3, None)], s)
  {
    hide FullMatch, Spelt;
    TextFirst("REQ-", [Piece(DIGITS, 3, None)], s);
    if |s| >= 4 {
      OnePiece(Piece(DIGITS, 3, None), s[4..]);
      forall c: char ensures '0' <= c <= '9' <==> c in DIGITS { Letters(c); }
      assert forall i | 4 <= i < |s| :: s[i] == s[4..][i - 4];
    }
  }

  /** The white space of Python's str.strip: 29 characters. */
  const SPACES: set<int> := {
    0x09, 0x0A, 0x0B, 0x0C, 0x0D, 0x1C, 0x1D, 0x1E, 0x1F, 0x20, 0x85, 0xA0, 0x1680, 0x2000, 0x2001, 0x2002, 0x2003, 0x2004, 0x2005,
    0x2006, 0x2007, 0x2008, 0x2009, 0x200A, 0x2028, 0x2029, 0x202F, 0x205F, 0x3000}

  lemma SpacesAre(n: int)
    ensures IsSpaceCode(n) <==> n in SPACES
  {
  }

  /** What stripping leaves has no white space at its ends, and what it takes off is
      white space. */
  lemma StripIs(s: string)
    ensures exists a, b :: s == a + Strip(s) + b && (forall c | c in a + b :: c as int in SPACES)
    ensures Strip(s) != [] ==> Strip(s)[0] as int !in SPACES && Strip(s)[|Strip(s)| - 1] as int !in SPACES
  {
    hide IsSpaceCode, StripLeft, StripRight;
    StripLeftCuts(s);
    StripRightCuts(StripLeft(s));
    var left := StripLeft(s);
    var (a, b) := (s[..|s| - |left|], left[|Strip(s)|..]);
    assert s == a + Strip(s) + b;
    forall c | c in a + b ensures c as int in SPACES { SpacesAre(c as int); }
    if Strip(s) != [] {
      assert Strip(s)[0] == left[0];
      SpacesAre(Strip(s)[0] as int);
      SpacesAre(Strip(s)[|Strip(s)| - 1] as int);
    }
  }
}
