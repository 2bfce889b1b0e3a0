/** Python's idea of white space, on Dafny strings. */
module Strings {
  import Utf8

  predicate IsSpace(c: char) {
    Utf8.IsSpaceCode(c as int)
  }

  /** not s.strip() */
  predicate Blank(s: string) {
    forall i | 0 <= i < |s| :: IsSpace(s[i])
  }

  function StripLeft(s: string): (t: string)
    ensures |t| <= |s|
    ensures t == [] || !IsSpace(t[0])
  {
    if s != [] && IsSpace(s[0]) then StripLeft(s[1..]) else s
  }

  function StripRight(s: string): (t: string)
    ensures |t| <= |s|
    ensures t == [] || !IsSpace(t[|t| - 1])
  {
    if s != [] && IsSpace(s[|s| - 1]) then StripRight(s[..|s| - 1]) else s
  }

  /** What is stripped is blank. */
  lemma {:induction false} StripLeftCuts(s: string)
    ensures s == s[..|s| - |StripLeft(s)|] + StripLeft(s) && Blank(s[..|s| - |StripLeft(s)|])
  {
    hide IsSpace;
    if s != [] && IsSpace(s[0]) {
      StripLeftCuts(s[1..]);
      var k := |s| - |StripLeft(s)|;
      assert s[1..][..k - 1] == s[1..k];
      assert s[..k] == [s[0]] + s[1..k];
    }
  }

  lemma {:induction false} StripRightCuts(s: string)
    ensures s == StripRight(s) + s[|StripRight(s)|..] && Blank(s[|StripRight(s)|..])
  {
    if s != [] && IsSpace(s[|s| - 1]) {
      var front := s[..|s| - 1];
      StripRightCuts(front);
      var k := |StripRight(s)|;
      assert s[k..] == front[k..] + [s[|s| - 1]];
      assert s == front + [s[|s| - 1]];
    }
  }

  /** s.strip() */
  function Strip(s: string): (t: string)
  {
    StripRight(StripLeft(s))
  }

  /** Stripping leaves nothing of a blank text and something of any other; a
      second strip finds nothing to do. */
  lemma StripFacts(s: string)
    ensures Blank(Strip(s)) <==> Blank(s)
    ensures Blank(s) <==> Strip(s) == []
    ensures Strip(Strip(s)) == Strip(s)
  {
    hide StripLeft, StripRight, IsSpace;
    var left := StripLeft(s);
    var t := StripRight(left);
    StripLeftCuts(s);
    StripRightCuts(left);
    BlankParts(s[..|s| - |left|], left);
    BlankParts(t, left[|t|..]);
    if t != [] {
      assert t[0] == left[0];
      StripsNothing(t);
    }
  }

  lemma BlankParts(a: string, b: string)
    ensures Blank(a + b) <==> Blank(a) && Blank(b)
  {
    if Blank(a + b) {
      forall i | 0 <= i < |a| ensures IsSpace(a[i]) { assert (a + b)[i] == a[i]; }
      forall i | 0 <= i < |b| ensures IsSpace(b[i]) { assert (a + b)[|a| + i] == b[i]; }
    }
  }

  lemma StripsNothing(t: string)
    requires t != [] && !IsSpace(t[0]) && !IsSpace(t[|t| - 1])
    ensures StripLeft(t) == t && StripRight(t) == t
  {
  }

  predicate Unique<T(==)>(s: seq<T>) {
    forall i, j | 0 <= i < j < |s| :: s[i] != s[j]
  }

  predicate NoneBlank(s: seq<string>) {
    forall i | 0 <= i < |s| :: !Blank(s[i])
  }

  // ----- formats -----

  predicate Alnum(c: char) {
    'A' <= c <= 'Z' || 'a' <= c <= 'z' || '0' <= c <= '9'
  }

  predicate IsHex(c: char) {
    '0' <= c <= '9' || 'a' <= c <= 'f'
  }

  /** [A-Za-z0-9][A-Za-z0-9_.-]{0,127} */
  predicate IsIdentifier(s: string) {
    1 <= |s| <= 128 && Alnum(s[0]) && forall i | 1 <= i < |s| :: Alnum(s[i]) || s[i] in "._-"
  }

  /** A full commit hash. */
  predicate IsSha(s: string) {
    |s| == 40 && forall i | 0 <= i < |s| :: IsHex(s[i])
  }

  /** REQ- and at least three digits. */
  predicate IsRequirement(s: string) {
    |s| >= 7 && s[..4] == "REQ-" && forall i | 4 <= i < |s| :: '0' <= s[i] <= '9'
  }
}
