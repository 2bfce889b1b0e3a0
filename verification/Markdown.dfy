/** Second-level sections of a Markdown document: reading them into a mapping,
    and replacing one of them. Both look for lines that begin with "## ", but
    not by the same rule: any "## " line ends a replaced section, only one with
    a name is read as a heading. */
module Markdown {
  import opened Utf8
  import opened Strings
  import opened TextLines
  import opened SectionNames

  const MARK: string := "## "

  predicate Starts(l: string) {
    MARK <= l
  }

  function UpToReturn(s: string): (n: nat)
    ensures n <= |s| && (n < |s| ==> s[n] == '\r') && '\r' !in s[..n]
  {
    if s == "" || s[0] == '\r' then 0
    else
      var n := UpToReturn(s[1..]);
      assert s[..n + 1] == [s[0]] + s[1..][..n];
      n + 1
  }

  /** A line that is read as a heading: "## ", at least one character that is no
      carriage return, and after a carriage return only blanks. */
  predicate IsHeading(l: string) {
    Starts(l) && UpToReturn(l[3..]) > 0 && Blank(l[3..][UpToReturn(l[3..])..])
  }

  function Name(l: string): string
    requires IsHeading(l)
  {
    Strip(l[3..][..UpToReturn(l[3..])])
  }

  /** The lines before the first heading. */
  function Until(ls: seq<string>): (n: nat)
    ensures n <= |ls| && (n < |ls| ==> IsHeading(ls[n])) && forall i | 0 <= i < n :: !IsHeading(ls[i])
  {
    if ls == [] || IsHeading(ls[0]) then 0
    else
      var n := Until(ls[1..]);
      assert forall i | 1 <= i < n + 1 :: ls[i] == ls[1..][i - 1];
      n + 1
  }

  function Body(ls: seq<string>): string {
    var n := Until(ls);
    if n == 0 then "" else Strip(Join(ls[..n]))
  }

  /** What markdown_sections maps a name to: of several sections of one name,
      the last. */
  function Get(ls: seq<string>, name: string): Option<string>
    decreases |ls|
  {
    if ls == [] then None
    else
      var later := Get(ls[1..], name);
      if later.Some? || !IsHeading(ls[0]) || Canonical(Name(ls[0])) != name then later else Some(Body(ls[1..]))
  }

  function Section(text: string, name: string): Option<string> {
    Get(Lines(text), name)
  }

  // ----- replacing -----

  /** The line is "## ", the label, and blanks. */
  predicate Labelled(l: string, tag: string) {
    Starts(l) && tag <= l[3..] && Blank(l[3..][|tag|..])
  }

  /** Which of a section's two labels the line has. */
  function LabelAt(l: string, heading: string): Option<string> {
    if Labelled(l, heading) then Some(heading)
    else if Labelled(l, Label(heading)) then Some(Label(heading))
    else None
  }

  function FindLabel(ls: seq<string>, heading: string): (i: nat)
    ensures i <= |ls| && (i < |ls| ==> LabelAt(ls[i], heading).Some?) && forall j | 0 <= j < i :: LabelAt(ls[j], heading).None?
    decreases |ls|
  {
    if ls == [] || LabelAt(ls[0], heading).Some? then 0
    else
      var i := FindLabel(ls[1..], heading);
      assert forall j | 1 <= j < i + 1 :: ls[j] == ls[1..][j - 1];
      i + 1
  }

  /** The lines before the first one that begins with "## ". */
  function UntilMark(ls: seq<string>): (n: nat)
    ensures n <= |ls| && (n < |ls| ==> Starts(ls[n])) && forall i | 0 <= i < n :: !Starts(ls[i])
  {
    if ls == [] || Starts(ls[0]) then 0
    else
      var n := UntilMark(ls[1..]);
      assert forall i | 1 <= i < n + 1 :: ls[i] == ls[1..][i - 1];
      n + 1
  }

  /** The lines of a new section; nothing after it leaves one blank line more. */
  function NewLines(tag: string, body: string, last: bool): (n: seq<string>)
    ensures |n| >= 2
  {
    [MARK + tag, ""] + Lines(Strip(body)) + (if last then ["", ""] else [""])
  }

  /** What comes after the section replaced: from the next line that begins with
      "## ", named or not. */
  function After(ls: seq<string>, heading: string): seq<string> {
    var i := FindLabel(ls, heading);
    if i == |ls| then [] else ls[i + 1..][UntilMark(ls[i + 1..])..]
  }

  /** The document's lines with the section put in, before the end is tidied. */
  function Put(ls: seq<string>, heading: string, body: string): (r: seq<string>)
    requires ls != []
    ensures r != []
  {
    var i := FindLabel(ls, heading);
    var after := After(ls, heading);
    if i < |ls| then ls[..i] + (NewLines(LabelAt(ls[i], heading).value, body, after == []) + after)
    else Trim(ls) + [""] + NewLines(Label(heading), body, true)
  }

  /** replace_section */
  function Replace(text: string, heading: string, body: string): string {
    var ls := Lines(text);
    if FindLabel(ls, heading) < |ls| then StripRight(Join(Put(ls, heading, body))) + "\n" else Join(Put(ls, heading, body))
  }

  // ----- documents and headings the laws are about -----

  /** A heading text: one line, no blanks around it, not empty. */
  predicate IsTitle(h: string) {
    h != "" && Strip(h) == h && '\n' !in h && '\r' !in h
  }

  /** A body that brings no "## " line of its own. */
  predicate Plain(body: string) {
    forall i | 0 <= i < |Lines(Strip(body))| :: !Starts(Lines(Strip(body))[i])
  }

  // ----- reading -----

  /** A heading starts afresh: what comes before it is read without it. */
  lemma {:induction false} GetConcat(a: seq<string>, b: seq<string>, name: string)
    requires b == [] || IsHeading(b[0])
    ensures Get(a + b, name) == if Get(b, name).Some? then Get(b, name) else Get(a, name)
    decreases |a|
  {
    hide IsHeading, Canonical, Name;
    if a == [] {
      assert a + b == b;
    } else {
      GetConcat(a[1..], b, name);
      assert (a + b)[1..] == a[1..] + b && (a + b)[0] == a[0];
      UntilConcat(a[1..], b);
    }
  }

  lemma {:induction false} UntilConcat(a: seq<string>, b: seq<string>)
    requires b == [] || IsHeading(b[0])
    ensures Until(a + b) == Until(a) && Body(a + b) == Body(a)
    decreases |a|
  {
    hide IsHeading, Strip, Join;
    if a == [] {
      assert a + b == b;
    } else {
      UntilConcat(a[1..], b);
      assert (a + b)[1..] == a[1..] + b && (a + b)[0] == a[0];
      assert (a + b)[..Until(a)] == a[..Until(a)];
    }
  }

  lemma {:induction false} NoHeadings(ls: seq<string>, name: string)
    requires forall i | 0 <= i < |ls| :: !IsHeading(ls[i])
    ensures Get(ls, name) == None && Until(ls) == |ls|
    decreases |ls|
  {
    if ls != [] { NoHeadings(ls[1..], name); }
  }

  /** A section on its own. */
  lemma GetOne(head: string, tail: seq<string>, name: string)
    requires IsHeading(head) && forall i | 0 <= i < |tail| :: !IsHeading(tail[i])
    ensures Get([head] + tail, name)
         == if Canonical(Name(head)) == name then Some(if tail == [] then "" else Strip(Join(tail))) else None
  {
    hide IsHeading, Canonical, Name, Strip, Join;
    NoHeadings(tail, name);
    assert ([head] + tail)[1..] == tail && tail[..|tail|] == tail;
  }

  // ----- headings as written -----

  lemma WrittenHeading(tag: string)
    requires IsTitle(tag)
    ensures IsHeading(MARK + tag) && Name(MARK + tag) == tag && Labelled(MARK + tag, tag)
  {
    var l := MARK + tag;
    assert l[3..] == tag;
    NoReturn(tag);
    assert tag[..|tag|] == tag;
  }

  lemma {:induction false} NoReturn(s: string)
    requires '\r' !in s
    ensures UpToReturn(s) == |s|
  {
    if s != "" {
      assert s[0] in s;
      NoReturn(s[1..]);
    }
  }

  /** A labelled line reads back as the label. */
  lemma LabelledName(l: string, tag: string)
    requires IsTitle(tag) && Labelled(l, tag)
    ensures IsHeading(l) && Name(l) == tag
  {
    hide Strip, Blank, UpToReturn;
    var t := l[3..];
    var w := t[|tag|..];
    var n := UpToReturn(t);
    assert t == tag + w;
    ReturnAfter(tag, w);
    var g, r := w[..n - |tag|], w[n - |tag|..];
    assert t[..n] == tag + g && t[n..] == r && w == g + r;
    BlankParts(g, r);
    EmptyIsBlank();
    StripBlanks("", tag, g);
    assert "" + tag + g == t[..n];
  }

  lemma {:induction false} ReturnAfter(a: string, w: string)
    requires '\r' !in a
    ensures UpToReturn(a + w) >= |a|
  {
    if a != "" {
      ReturnAfter(a[1..], w);
      assert (a + w)[1..] == a[1..] + w && (a + w)[0] == a[0] && a[0] in a;
    }
  }

  // ----- tidying the end -----

  lemma BlankIsNoMark(l: string)
    requires Blank(l)
    ensures !Starts(l) && !IsHeading(l)
  {
    if l != "" { assert IsSpace(l[0]); }
  }

  lemma BodyBlankTail(a: seq<string>, w: string)
    requires Blank(w)
    ensures Body(a + [w]) == Body(a)
  {
    hide IsHeading, Join, Strip;
    BlankIsNoMark(w);
    var n := Until(a);
    UntilTail(a, w);
    if n < |a| {
      assert (a + [w])[..n] == a[..n];
    } else {
      assert (a + [w])[..|a| + 1] == a + [w] && a[..n] == a;
      if a == [] {
        JoinCons(w, []);
        assert [w] + [] == [w] && a + [w] == [w];
        StripFacts(w);
      } else {
        JoinAppend(a, [w]);
        JoinCons(w, []);
        assert [w] + [] == [w];
        NewlineBlank(w);
        assert Join(a + [w]) == "" + Join(a) + ("\n" + w);
        StripBlanks("", Join(a), "\n" + w);
      }
    }
  }

  lemma {:induction false} UntilTail(a: seq<string>, x: string)
    requires !IsHeading(x)
    ensures Until(a + [x]) == if Until(a) < |a| then Until(a) else |a| + 1
    decreases |a|
  {
    hide IsHeading;
    if a == [] {
      assert (a + [x])[1..] == [];
    } else {
      UntilTail(a[1..], x);
      assert (a + [x])[1..] == a[1..] + [x] && (a + [x])[0] == a[0];
    }
  }

  lemma {:induction false} GetBlankTail(a: seq<string>, w: string, name: string)
    requires Blank(w)
    ensures Get(a + [w], name) == Get(a, name)
    decreases |a|
  {
    hide IsHeading, Canonical, Name, Body;
    BlankIsNoMark(w);
    if a == [] {
      assert ([] + [w])[1..] == [] && ([] + [w])[0] == w;
    } else {
      GetBlankTail(a[1..], w, name);
      BodyBlankTail(a[1..], w);
      assert (a + [w])[1..] == a[1..] + [w] && (a + [w])[0] == a[0];
    }
  }

  /** The line is no heading or one with a name. */
  predicate Named(l: string) {
    IsHeading(l) ==> Name(l) != ""
  }

  /** Stripping a named line on the right leaves it the heading it is, or is
      not. */
  lemma StrippedLine(l: string)
    requires Named(l)
    ensures IsHeading(StripRight(l)) == IsHeading(l)
    ensures IsHeading(l) ==> Name(StripRight(l)) == Name(l)
  {
    hide StripRight, IsHeading, Name;
    StripRightCuts(l);
    HeadingStarts(l);
    if IsHeading(l) {
      StrippedHeading(l);
    } else if IsHeading(StripRight(l)) {
      BlanksAfterHeading(StripRight(l), l[|StripRight(l)|..]);
    }
  }

  lemma BlanksAfterHeading(l: string, w: string)
    requires IsHeading(l) && Blank(w)
    ensures IsHeading(l + w)
  {
    hide Blank;
    var t := l[3..];
    var n := UpToReturn(t);
    assert (l + w)[3..] == t + w && t == t[..n] + t[n..];
    ReturnAfter(t[..n], t[n..] + w);
    assert t[..n] + (t[n..] + w) == t + w;
    var m := UpToReturn(t + w);
    BlankParts(t[n..], w);
    assert t[n..] + w == (t[n..] + w)[..m - n] + (t[n..] + w)[m - n..];
    BlankParts((t[n..] + w)[..m - n], (t[n..] + w)[m - n..]);
    assert (t + w)[m..] == (t[n..] + w)[m - n..];
  }

  lemma HeadingStarts(l: string)
    ensures IsHeading(l) ==> Starts(l)
  {
  }

  lemma MarkOfPrefix(p: string, rest: string)
    ensures Starts(p) ==> Starts(p + rest)
  {
  }

  lemma StrippedHeading(l: string)
    requires Starts(l) && IsHeading(l) && Name(l) != ""
    ensures IsHeading(StripRight(l)) && Starts(StripRight(l)) && Name(StripRight(l)) == Name(l)
  {
    hide StripRight, StripLeft, Strip, Blank, IsSpace, UpToReturn;
    var t := l[3..];
    var n := UpToReturn(t);
    var g := t[..n];
    StripFacts(g);
    assert t == g + t[n..] && l == MARK + t;
    BlankParts(g, t[n..]);
    StripRightKeeps(MARK, t);
    StripRightBlank(g, t[n..]);
    var t' := StripRight(g);
    assert StripRight(l) == MARK + t' && StripRight(l)[3..] == t';
    StripRightCuts(g);
    PartWithout(t', g[|t'|..], '\r');
    NoReturn(t');
    StripRightNothing(g);
    assert t'[..|t'|] == t' && t'[|t'|..] == [];
    StripOfStripRight(g);
    EmptyIsBlank();
  }

  lemma PartWithout(a: string, b: string, c: char)
    requires c !in a + b
    ensures c !in a
  {
    assert forall i | 0 <= i < |a| :: (a + b)[i] == a[i];
  }

  lemma EmptyIsBlank()
    ensures Blank("")
  {
  }

  lemma BodyStripTail(a: seq<string>, x: string)
    requires Named(x)
    ensures Body(a + [StripRight(x)]) == Body(a + [x])
  {
    hide IsHeading, Join, Strip, StripRight, Name;
    StrippedLine(x);
    var x' := StripRight(x);
    if IsHeading(x) {
      UntilConcat(a, [x]);
      UntilConcat(a, [x']);
    } else {
      UntilTail(a, x);
      UntilTail(a, x');
      var n := Until(a);
      if n < |a| {
        assert (a + [x])[..n] == a[..n] && (a + [x'])[..n] == a[..n];
      } else {
        assert (a + [x])[..n + 1] == a + [x] && (a + [x'])[..n + 1] == a + [x'];
        JoinLast(a, x);
        JoinLast(a, x');
        StripRightCuts(x);
        var front := if a == [] then "" else Join(a) + "\n";
        assert Join(a + [x]) == "" + (front + x') + x[|x'|..];
        StripBlanks("", front + x', x[|x'|..]);
      }
    }
  }

  lemma JoinLast(a: seq<string>, x: string)
    ensures Join(a + [x]) == (if a == [] then "" else Join(a) + "\n") + x
  {
    hide Join;
    JoinCons(x, []);
    assert [x] + [] == [x];
    if a == [] { assert a + [x] == [x]; } else { JoinAppend(a, [x]); }
  }

  lemma {:induction false} GetStripTail(a: seq<string>, x: string, name: string)
    requires Named(x)
    ensures Get(a + [StripRight(x)], name) == Get(a + [x], name)
    decreases |a|
  {
    hide IsHeading, Canonical, Name, Body, StripRight;
    StrippedLine(x);
    var x' := StripRight(x);
    if a == [] {
      GetAlone(x, name);
      GetAlone(x', name);
      assert a + [x] == [x] && a + [x'] == [x'];
    } else {
      GetStripTail(a[1..], x, name);
      BodyStripTail(a[1..], x);
      assert (a + [x])[1..] == a[1..] + [x] && (a + [x])[0] == a[0];
      assert (a + [x'])[1..] == a[1..] + [x'] && (a + [x'])[0] == a[0];
    }
  }

  lemma GetAlone(x: string, name: string)
    ensures Get([x], name) == if IsHeading(x) && Canonical(Name(x)) == name then Some("") else None
  {
    assert [x][1..] == [];
  }

  lemma {:induction false} GetBlankTails(a: seq<string>, ws: seq<string>, name: string)
    requires forall i | 0 <= i < |ws| :: Blank(ws[i])
    ensures Get(a + ws, name) == Get(a, name)
    decreases |ws|
  {
    if ws == [] {
      assert a + ws == a;
    } else {
      var n := |ws| - 1;
      GetBlankTails(a, ws[..n], name);
      GetBlankTail(a + ws[..n], ws[n], name);
      assert a + ws == a + ws[..n] + [ws[n]];
    }
  }

  /** Stripping a document on the right loses no section unless its last line is
      a heading without a name. */
  lemma GetTrim(ls: seq<string>, name: string)
    requires ls != [] && Named(LastLine(ls))
    ensures Get(Trim(ls) + [""], name) == Get(ls, name)
  {
    hide Get, Trim, StripRight, Blank, IsHeading, Name;
    var n := TrimStops(ls);
    EmptyIsBlank();
    GetBlankTail(Trim(ls), "", name);
    GetStripTail(ls[..n], ls[n], name);
    assert ls[..n + 1] == ls[..n] + [ls[n]];
    GetBlankTails(ls[..n + 1], ls[n + 1..], name);
    assert ls == ls[..n + 1] + ls[n + 1..];
  }
}
