/** Writing a section twice, under one of its names or under both. */
module MarkdownWrites {
  import opened Utf8
  import opened Strings
  import opened TextLines
  import opened SectionNames
  import opened Markdown
  import opened MarkdownLaws

  /** Either of the two names a section goes by. */
  predicate EitherName(name: string, heading: string) {
    name == heading || name == Label(heading)
  }

  lemma EitherIsSection(name: string, heading: string)
    requires IsSectionName(heading) && EitherName(name, heading)
    ensures IsSectionName(name) && Label(name) == Label(heading) && Canonical(name) == Canonical(heading)
  {
    hide Label, Canonical, IsTitle;
    LabelTwice(heading);
    SameSection(heading);
  }

  // ----- the same place -----

  lemma LabelsAgree(l: string, heading: string, name: string)
    requires IsSectionName(heading) && EitherName(name, heading) && LabelAt(l, name).Some? && LabelAt(l, heading).Some?
    ensures LabelAt(l, name) == LabelAt(l, heading)
  {
    hide Label, Labelled, IsTitle;
    LabelTwice(heading);
    if name != heading && Labelled(l, heading) { OneLabel(l, heading, Label(heading)); }
  }

  lemma OneLabel(l: string, a: string, b: string)
    requires IsTitle(a) && IsTitle(b) && Labelled(l, a) && Labelled(l, b)
    ensures a == b
  {
    hide Labelled, IsTitle, IsHeading, Name;
    LabelledName(l, a);
    LabelledName(l, b);
  }

  /** Names that find the same line, or both none, write the same. */
  lemma SameWrite(text: string, heading: string, a: string, b: string, body: string)
    requires IsSectionName(heading) && EitherName(a, heading) && EitherName(b, heading)
    requires FindLabel(Lines(text), a) == FindLabel(Lines(text), b)
    ensures Replace(text, a, body) == Replace(text, b, body) && After(Lines(text), a) == After(Lines(text), b)
  {
    hide Lines, Join, StripRight, FindLabel, Put, After, Label, IsSectionName;
    SamePut(Lines(text), heading, a, b, body);
  }

  lemma SamePut(ls: seq<string>, heading: string, a: string, b: string, body: string)
    requires ls != [] && IsSectionName(heading) && EitherName(a, heading) && EitherName(b, heading)
    requires FindLabel(ls, a) == FindLabel(ls, b)
    ensures Put(ls, a, body) == Put(ls, b, body) && After(ls, a) == After(ls, b)
  {
    hide Label, LabelAt, IsTitle, NewLines, Trim, UntilMark, FindLabel;
    LabelTwice(heading);
    var i := FindLabel(ls, a);
    if i < |ls| { BothLabel(ls[i], heading, a, b); }
  }

  lemma BothLabel(l: string, heading: string, a: string, b: string)
    requires IsSectionName(heading) && EitherName(a, heading) && EitherName(b, heading)
    requires LabelAt(l, a).Some? && LabelAt(l, b).Some?
    ensures LabelAt(l, a) == LabelAt(l, b)
  {
    hide Label, LabelAt, IsTitle;
    LabelledByBoth(l, heading, a);
    LabelledByBoth(l, heading, b);
    LabelsAgree(l, heading, a);
    LabelsAgree(l, heading, b);
  }

  /** The name that stands for both labels finds at least what the other does. */
  lemma LabelledByBoth(l: string, heading: string, name: string)
    requires EitherName(name, heading) && LabelAt(l, name).Some?
    ensures LabelAt(l, heading).Some?
  {
    hide Label, Labelled;
    LabelTwice(heading);
  }

  // ----- writing twice -----

  lemma {:induction false} MarkAt(a: seq<string>, b: seq<string>)
    requires (forall i | 0 <= i < |a| :: !Starts(a[i])) && b != [] && Starts(b[0])
    ensures UntilMark(a + b) == |a|
    decreases |a|
  {
    hide Starts;
    if a == [] {
      assert a + b == b;
    } else {
      MarkAt(a[1..], b);
      assert (a + b)[1..] == a[1..] + b && (a + b)[0] == a[0];
    }
  }

  lemma {:induction false} LabelFoundAt(a: seq<string>, b: seq<string>, heading: string)
    requires (forall i | 0 <= i < |a| :: LabelAt(a[i], heading).None?) && b != [] && LabelAt(b[0], heading).Some?
    ensures FindLabel(a + b, heading) == |a|
    decreases |a|
  {
    hide LabelAt;
    if a == [] {
      assert a + b == b;
    } else {
      LabelFoundAt(a[1..], b, heading);
      assert (a + b)[1..] == a[1..] + b && (a + b)[0] == a[0];
    }
  }

  /** A document that has the section at a place, with nothing of its name
      before and a heading or nothing after, and the section put there. */
  lemma PutOver(before: seq<string>, section: seq<string>, after: seq<string>, heading: string, tag: string, body: string)
    requires IsSectionName(heading) && (tag == heading || tag == Label(heading))
    requires forall i | 0 <= i < |before| :: LabelAt(before[i], heading).None?
    requires section != [] && section[0] == MARK + tag && UntilMark(section[1..]) == |section| - 1
    requires after == [] || Starts(after[0])
    ensures var ls := before + (section + after);
            FindLabel(ls, heading) == |before| && After(ls, heading) == after
            && Put(ls, heading, body) == before + (NewLines(tag, body, after == []) + after)
  {
    hide LabelAt, Starts, Label, NewLines, IsSectionName, FindLabel, UntilMark, Trim;
    var ls := before + (section + after);
    WrittenLabel(heading, tag);
    LabelFoundAt(before, section + after, heading);
    assert ls[|before|] == MARK + tag && ls[|before| + 1..] == section[1..] + after && ls[..|before|] == before;
    if after == [] {
      assert section[1..] + after == section[1..];
    } else {
      MarkAt(section[1..], after);
    }
    assert (section[1..] + after)[|section| - 1..] == after;
  }

  lemma TrimTwice(ls: seq<string>)
    requires ls != []
    ensures Trim(Trim(ls) + [""]) == Trim(ls)
  {
    hide StripRight, Blank;
    var n := TrimStops(ls);
    var t := Trim(ls);
    EmptyIsBlank();
    assert (t + [""])[..|t|] == t;
    StripRightTwice(ls[n]);
    assert t[..|t| - 1] == ls[..n] && t[|t| - 1] == StripRight(ls[n]);
  }

  lemma Unlabelled(ls: seq<string>, heading: string)
    requires ls != [] && FindLabel(ls, heading) == |ls|
    ensures forall i | 0 <= i < |Trim(ls) + [""]| :: LabelAt((Trim(ls) + [""])[i], heading).None?
  {
    hide StripRight, Blank, LabelAt, Trim, Label;
    var n := TrimStops(ls);
    StrippedLabel(ls[n], heading);
    EmptyIsNoMark();
    NoLabel("", heading);
    var t := Trim(ls) + [""];
    forall i | 0 <= i < |t| ensures LabelAt(t[i], heading).None? {
      if i < n { assert t[i] == ls[i]; }
    }
  }

  lemma NoLabel(l: string, heading: string)
    requires !Starts(l)
    ensures LabelAt(l, heading).None?
  {
  }

  lemma StrippedLabel(l: string, heading: string)
    requires LabelAt(l, heading).None?
    ensures LabelAt(StripRight(l), heading).None?
  {
    hide StripRight, Label;
    StripRightCuts(l);
    StillLabelled(StripRight(l), l[|StripRight(l)|..], heading);
    StillLabelled(StripRight(l), l[|StripRight(l)|..], Label(heading));
  }

  lemma StillLabelled(l: string, w: string, tag: string)
    requires Blank(w)
    ensures Labelled(l, tag) ==> Labelled(l + w, tag)
  {
    hide Blank;
    if Labelled(l, tag) {
      assert (l + w)[3..] == l[3..] + w;
      assert (l[3..] + w)[|tag|..] == l[3..][|tag|..] + w;
      BlankParts(l[3..][|tag|..], w);
    }
  }

  /** What comes after a section still begins with "## " when the end is tidied. */
  predicate Survives(after: seq<string>) {
    after == [] || Starts(Trim(after)[0])
  }

  /** The lines after writing twice are those after writing the last once. */
  lemma PutTwice(ls: seq<string>, heading: string, first: string, second: string)
    requires ls != [] && IsSectionName(heading) && Plain(first) && Survives(After(ls, heading))
    ensures var put := Put(ls, heading, first);
            var ls1 := if FindLabel(ls, heading) < |ls| then Trim(put) + [""] else put;
            FindLabel(ls1, heading) < |ls1|
            && Trim(Put(ls1, heading, second)) == Trim(Put(ls, heading, second))
  {
    hide StripRight, Blank, LabelAt, Trim, Label, NewLines, Plain, IsHeading, Name, IsTitle, Put, After, Starts, Canonical, Survives;
    var i := FindLabel(ls, heading);
    if i == |ls| {
      PutTwiceNew(ls, heading, first, second);
    } else {
      var k, tag, n := Found(ls, heading);
      PutThere(ls, heading, first);
      PutThere(ls, heading, second);
      if After(ls, heading) == [] {
        PutTwiceLast(ls, heading, tag, first, second);
      } else {
        PutTwiceInside(ls, heading, tag, first, second);
      }
    }
  }

  lemma PutTwiceNew(ls: seq<string>, heading: string, first: string, second: string)
    requires ls != [] && IsSectionName(heading) && Plain(first) && FindLabel(ls, heading) == |ls|
    ensures var ls1 := Put(ls, heading, first);
            FindLabel(ls1, heading) < |ls1| && Put(ls1, heading, second) == Put(ls, heading, second)
  {
    hide StripRight, Blank, LabelAt, Trim, Label, Plain, IsTitle, Strip, Starts, NewLines, IsSectionName;
    var tag := Label(heading);
    var before, section := Trim(ls) + [""], NewLines(tag, first, true);
    Unlabelled(ls, heading);
    TailLines(tag, first, true);
    NoMarks(section[1..]);
    PutOver(before, section, [], heading, tag, second);
    assert section + [] == section && NewLines(tag, second, true) + [] == NewLines(tag, second, true);
  }

  lemma PutTwiceLast(ls: seq<string>, heading: string, tag: string, first: string, second: string)
    requires ls != [] && IsSectionName(heading) && Plain(first) && FindLabel(ls, heading) < |ls|
    requires IsTitle(tag) && LabelAt(ls[FindLabel(ls, heading)], heading) == Some(tag) && After(ls, heading) == []
    ensures var ls1 := Trim(Put(ls, heading, first)) + [""];
            FindLabel(ls1, heading) < |ls1| && Put(ls1, heading, second) == Put(ls, heading, second)
  {
    hide StripRight, Blank, Trim, Label, Plain, IsTitle, Strip, Starts, NewLines, IsSectionName, Put, After, Labelled;
    var before, section := ls[..FindLabel(ls, heading)], NewLines(tag, first, true);
    PutThere(ls, heading, first);
    PutThere(ls, heading, second);
    assert before + (section + []) == before + section;
    TailLines(tag, first, true);
    MarkStarts(tag);
    MarkIsNotBlank(section[0]);
    TrimAppend(before, section, 0);
    var rest := TrimmedSection(tag, first);
    var trimmed := [MARK + tag] + rest;
    assert before + Trim(section) + [""] == before + trimmed && trimmed + [] == trimmed && trimmed[1..] == rest;
    PutOver(before, trimmed, [], heading, tag, second);
  }

  lemma PutTwiceInside(ls: seq<string>, heading: string, tag: string, first: string, second: string)
    requires ls != [] && IsSectionName(heading) && Plain(first) && FindLabel(ls, heading) < |ls| && Survives(After(ls, heading))
    requires IsTitle(tag) && LabelAt(ls[FindLabel(ls, heading)], heading) == Some(tag) && After(ls, heading) != []
    ensures var ls1 := Trim(Put(ls, heading, first)) + [""];
            FindLabel(ls1, heading) < |ls1| && Trim(Put(ls1, heading, second)) == Trim(Put(ls, heading, second))
  {
    hide StripRight, Blank, Trim, Label, Plain, IsTitle, Strip, Starts, NewLines, IsSectionName, Put, After, Labelled, IsHeading, Name, FindLabel;
    var before, after := ls[..FindLabel(ls, heading)], After(ls, heading);
    var one, two := NewLines(tag, first, false), NewLines(tag, second, false);
    PutThere(ls, heading, first);
    PutThere(ls, heading, second);
    AfterStarts(ls, heading);
    TailLines(tag, first, false);
    NoMarks(one[1..]);
    MarkIsNotBlank(after[0]);
    var after' := Trim(after) + [""];
    TrimAppend(before + one, after, 0);
    TrimAppend(before + two, after, 0);
    MarkIsNotBlank(after'[0]);
    TrimAppend(before + two, after', 0);
    TrimTwice(after);
    assert before + (one + after) == before + one + after && before + (two + after) == before + two + after;
    assert before + one + Trim(after) + [""] == before + (one + after');
    assert before + (two + after') == before + two + after';
    PutOver(before, one, after', heading, tag, second);
  }

  /** Writing twice under one name, when what comes after the section survives. */
  lemma LastWriteStays(text: string, heading: string, first: string, second: string)
    requires IsSectionName(heading) && Plain(first) && Survives(After(Lines(text), heading))
    ensures StripRight(Replace(Replace(text, heading, first), heading, second)) == StripRight(Replace(text, heading, second))
  {
    hide StripRight, Lines, Join, Put, Trim, FindLabel, Plain, IsSectionName, Replace, Survives;
    var ls := Lines(text);
    ReplacedLines(text, heading, first);
    PutTwice(ls, heading, first, second);
    ReplacedEnds(text, heading, second);
    ReplacedEnds(Replace(text, heading, first), heading, second);
  }

  lemma ReplacedEnds(text: string, heading: string, body: string)
    ensures StripRight(Replace(text, heading, body)) == Join(Trim(Put(Lines(text), heading, body)))
  {
    hide StripRight, Lines, Join, Put, Trim, FindLabel;
    var put := Put(Lines(text), heading, body);
    JoinTrim(put);
    StripRightBlank(StripRight(Join(put)), "\n");
    StripRightTwice(Join(put));
    NewlineIsBlank();
  }

  // ----- one line of a write -----

  /** Where a write puts its heading. */
  function Place(ls: seq<string>, name: string): nat
    requires ls != []
  {
    if FindLabel(ls, name) < |ls| then FindLabel(ls, name) else |Trim(ls)| + 1
  }

  /** A body of one word. */
  predicate IsWord(w: string) {
    w == "x" || w == "y"
  }

  lemma WordLines(w: string)
    requires IsWord(w)
    ensures Plain(w) && Strip(w) == w && StripRight(w) == w && !Blank(w) && !Starts(w) && OneLine(w) && Lines(Strip(w)) == [w]
  {
    TwoBodies();
    StripsNothing(w);
    LineOf(w);
  }

  /** The lines of a put around its place: heading, blank line, body. */
  lemma PutAt(ls: seq<string>, name: string, w: string) returns (tag: string)
    requires ls != [] && IsSectionName(name) && IsWord(w)
    ensures var put, at := Put(ls, name, w), Place(ls, name);
            && |put| > at + 2 && put[at] == MARK + tag && put[at + 1] == "" && put[at + 2] == w && IsTitle(tag)
            && (FindLabel(ls, name) < |ls| ==> LabelAt(ls[at], name) == Some(tag) && put[..at] == ls[..at])
            && (FindLabel(ls, name) == |ls| ==> tag == Label(name) && put[..at] == Trim(ls) + [""])
  {
    hide LabelAt, Label, Trim, IsTitle, StripRight, Strip, Lines, Plain, Starts, Blank, After, Labelled, Canonical, IsHeading, Name;
    WordLines(w);
    if FindLabel(ls, name) < |ls| {
      var i, n;
      i, tag, n := Found(ls, name);
    } else {
      tag := Label(name);
    }
  }

  lemma TrimKeeps(ls: seq<string>, k: nat)
    requires k < |ls| && !Blank(ls[k])
    ensures k < |Trim(ls)| <= |ls| && forall m | 0 <= m < k :: Trim(ls)[m] == ls[m]
    ensures Trim(ls)[k] == ls[k] || Trim(ls)[k] == StripRight(ls[k])
  {
    hide Trim, StripRight, Blank;
    var n := TrimStops(ls);
  }

  /** The lines of the document after the write of a word, up to the word. */
  lemma WriteAt(text: string, name: string, w: string) returns (tag: string)
    requires IsSectionName(name) && IsWord(w)
    ensures var ls := Lines(text);
            var ls1, at := Lines(Replace(text, name, w)), Place(ls, name);
            && |ls1| > at + 2 && ls1[at] == MARK + tag && ls1[at + 1] == "" && ls1[at + 2] == w && IsTitle(tag)
            && (FindLabel(ls, name) < |ls| ==> LabelAt(ls[at], name) == Some(tag) && ls1[..at] == ls[..at])
            && (FindLabel(ls, name) == |ls| ==> tag == Label(name) && ls1[..at] == Trim(ls) + [""])
  {
    hide LabelAt, Label, Trim, IsTitle, StripRight, Lines, Put, Blank, IsSectionName, Replace, FindLabel, Plain, Starts, Strip;
    var ls := Lines(text);
    WordLines(w);
    tag := PutAt(ls, name, w);
    ReplacedLines(text, name, w);
    TrimKeeps(Put(ls, name, w), Place(ls, name) + 2);
  }

  // ----- different places -----

  lemma {:induction false} LabelStays(l: string, tag: string)
    requires IsTitle(tag) && Labelled(l, tag)
    ensures Labelled(StripRight(l), tag)
  {
    hide Strip, IsSpace;
    var t := l[3..];
    var w := t[|tag|..];
    assert t == tag + w && l == MARK + tag + w;
    StripRightBlank(MARK + tag, w);
    TitleStripped(tag);
    assert (MARK + tag)[3..] == tag && tag[|tag|..] == "";
    EmptyIsBlank();
  }

  /** A labelled line is there after the end is tidied. */
  lemma FindTrimmed(ls: seq<string>, name: string)
    requires IsSectionName(name) && FindLabel(ls, name) < |ls|
    ensures var i := FindLabel(ls, name);
            i < |Trim(ls)| && LabelAt(Trim(ls)[i], name) == LabelAt(ls[i], name) && Trim(ls)[..i] == ls[..i]
  {
    hide Trim, StripRight, Blank, Label, Labelled, IsTitle, Starts, Canonical, IsHeading, Name;
    var i, tag, n := Found(ls, name);
    LabelledStarts(ls[i], tag);
    MarkIsNotBlank(ls[i]);
    TrimKeeps(ls, i);
    LabelStays(ls[i], tag);
    if LabelAt(ls[i], name) == Some(name) { LabelStays(ls[i], name); } else { StaysUnlabelled(ls[i], name); }
  }

  lemma LabelledStarts(l: string, tag: string)
    requires Labelled(l, tag)
    ensures Starts(l)
  {
  }

  lemma StaysUnlabelled(l: string, tag: string)
    requires !Labelled(l, tag)
    ensures !Labelled(StripRight(l), tag)
  {
    hide StripRight, Labelled;
    StripRightCuts(l);
    StillLabelled(StripRight(l), l[|StripRight(l)|..], tag);
  }

  lemma {:induction false} FoundLater(ls: seq<string>, name: string, k: nat)
    requires k <= |ls| && forall i | 0 <= i < k :: LabelAt(ls[i], name).None?
    ensures FindLabel(ls, name) >= k
  {
    hide LabelAt;
  }

  /** A section found under its own name alone: after a write there the other name
      finds nothing up to the word written. */
  lemma FirstPlace(text: string, heading: string, first: string)
    requires IsSectionName(heading) && IsWord(first) && FindLabel(Lines(text), heading) < FindLabel(Lines(text), Label(heading))
    ensures var ls1, i := Lines(Replace(text, heading, first)), FindLabel(Lines(text), heading);
            |ls1| > i + 2 && ls1[i + 2] == first && i + 2 < FindLabel(ls1, Label(heading))
  {
    hide Lines, Replace, Put, Trim, IsTitle, Label, LabelAt, StripRight, Blank, IsSectionName, Plain, Strip, Starts, FindLabel, After;
    var tag := WriteAt(text, heading, first);
    var ls, ls1 := Lines(text), Lines(Replace(text, heading, first));
    UnlabelledUpTo(ls, ls1, heading, tag, first);
    FoundLater(ls1, Label(heading), FindLabel(ls, heading) + 3);
  }

  /** The first write keeps the section where it is, and the second goes somewhere
      after it. */
  lemma FirstStays(text: string, heading: string, first: string, second: string)
    requires IsSectionName(heading) && IsWord(first) && IsWord(second)
    requires FindLabel(Lines(text), heading) < FindLabel(Lines(text), Label(heading))
    ensures var i := FindLabel(Lines(text), heading);
            var end := Trim(Put(Lines(Replace(text, heading, first)), Label(heading), second));
            |end| > i + 2 && end[i + 2] == first
  {
    hide Lines, Replace, Put, Trim, Label, IsSectionName, IsWord, FindLabel;
    EitherIsSection(Label(heading), heading);
    FirstPlace(text, heading, first);
    WordStays(Lines(Replace(text, heading, first)), Label(heading), FindLabel(Lines(text), heading) + 2, first, second);
  }

  /** A word above the place of a put stays. */
  lemma WordStays(ls1: seq<string>, name: string, k: nat, w: string, second: string)
    requires ls1 != [] && IsSectionName(name) && IsWord(w) && IsWord(second)
    requires k < FindLabel(ls1, name) && k < |ls1| && ls1[k] == w
    ensures var end := Trim(Put(ls1, name, second)); |end| > k && end[k] == w
  {
    hide Lines, Put, Trim, IsTitle, Label, LabelAt, StripRight, Blank, IsSectionName, Plain, Strip, Starts, FindLabel, After;
    WordLines(w);
    WordLines(second);
    var tag := PutAt(ls1, name, second);
    var at := Place(ls1, name);
    TrimKeeps(ls1, k);
    TrimKeeps(Put(ls1, name, second), at + 2);
    PrefixAt(Put(ls1, name, second), at, k);
  }

  lemma PrefixAt(put: seq<string>, at: nat, k: nat)
    requires k < at <= |put|
    ensures put[..at][k] == put[k]
  {
  }

  lemma UnlabelledUpTo(ls: seq<string>, ls1: seq<string>, heading: string, tag: string, w: string)
    requires IsSectionName(heading) && IsWord(w) && IsTitle(tag)
    requires FindLabel(ls, heading) < FindLabel(ls, Label(heading))
    requires var i := FindLabel(ls, heading);
             && |ls1| > i + 2 && ls1[..i] == ls[..i] && ls1[i] == MARK + tag && ls1[i + 1] == "" && ls1[i + 2] == w
             && LabelAt(ls[i], heading) == Some(tag)
    ensures forall k | 0 <= k < FindLabel(ls, heading) + 3 :: LabelAt(ls1[k], Label(heading)).None?
  {
    hide IsTitle, Label, Labelled, Starts, Plain, Strip, StripRight, Blank, Lines;
    var i, other := FindLabel(ls, heading), Label(heading);
    LabelTwice(heading);
    WordLines(w);
    EmptyIsNoMark();
    NoLabel("", other);
    NoLabel(w, other);
    WrittenHeading(tag);
    if Labelled(MARK + tag, other) { OneLabel(MARK + tag, tag, other); }
    forall k | 0 <= k < i + 3 ensures LabelAt(ls1[k], other).None? {
      if k < i { assert ls1[k] == ls1[..i][k] == ls[k]; }
    }
  }

  lemma {:induction false} UntilPrefix(a: seq<string>, b: seq<string>, p: nat)
    requires p < |a| && p < |b| && a[..p + 1] == b[..p + 1] && Starts(a[p])
    ensures UntilMark(a) == UntilMark(b) <= p
  {
    hide Starts;
    var u, v := UntilMark(a), UntilMark(b);
    assert a[..p + 1][p] == b[..p + 1][p];
    assert u <= p && v <= p;
    assert a[u] == a[..p + 1][u] == b[u] && b[v] == b[..p + 1][v] == a[v];
  }

  lemma MarkBefore(ls: seq<string>, p: nat)
    requires p < |ls| && Starts(ls[p])
    ensures UntilMark(ls) <= p
  {
    hide Starts;
  }

  lemma Shifted(ls: seq<string>, i: nat, u: nat, k: nat)
    requires i + 1 + u <= k < |ls|
    ensures ls[i + 1..][u..] != [] && k - i - 1 - u < |ls[i + 1..][u..]| && ls[i + 1..][u..][k - i - 1 - u] == ls[k]
    ensures ls[i + 1..][k - i - 1] == ls[k]
  {
  }

  /** A put of a word inside a document: four lines before what comes after. */
  lemma PutInside(ls: seq<string>, heading: string, w: string) returns (section: seq<string>)
    requires ls != [] && IsSectionName(heading) && IsWord(w) && FindLabel(ls, heading) < |ls| && After(ls, heading) != []
    ensures Put(ls, heading, w) == ls[..FindLabel(ls, heading)] + (section + After(ls, heading)) && |section| == 4
    ensures After(ls, heading) == ls[FindLabel(ls, heading) + 1..][UntilMark(ls[FindLabel(ls, heading) + 1..])..]
  {
    hide LabelAt, Label, Trim, IsTitle, StripRight, Strip, Lines, Plain, Starts, Blank, Labelled, FindLabel, UntilMark, Put, NewLines;
    PutThere(ls, heading, w);
    section := NewLines(LabelAt(ls[FindLabel(ls, heading)], heading).value, w, false);
    WordSection(LabelAt(ls[FindLabel(ls, heading)], heading).value, w);
  }

  /** Below a section that is found, the word written later stays, moved by what
      the section grows or shrinks. */
  lemma PassedAt(ls1: seq<string>, heading: string, at: nat, w: string, second: string)
    requires ls1 != [] && IsSectionName(heading) && IsWord(w) && IsWord(second)
    requires FindLabel(ls1, heading) < at && at + 2 < |ls1| && Starts(ls1[at]) && ls1[at + 2] == w
    ensures var u := UntilMark(ls1[FindLabel(ls1, heading) + 1..]);
            var end := Trim(Put(ls1, heading, second));
            u <= at && |end| > at + 5 - u && end[at + 5 - u] == w
  {
    hide LabelAt, Trim, StripRight, Plain, Starts, Blank, IsSectionName, FindLabel, UntilMark, Put, After, Strip, Lines;
    var i := FindLabel(ls1, heading);
    var u := UntilMark(ls1[i + 1..]);
    Shifted(ls1, i, 0, at);
    MarkBefore(ls1[i + 1..], at - i - 1);
    Shifted(ls1, i, u, at + 2);
    AfterThere(ls1, heading, i);
    var section := PutInside(ls1, heading, second);
    WordLines(w);
    PastSection(ls1[..i], section, After(ls1, heading), at + 1 - i - u);
    TrimKeeps(Put(ls1, heading, second), at + 5 - u);
  }

  lemma AfterThere(ls: seq<string>, heading: string, i: nat)
    requires i == FindLabel(ls, heading) < |ls|
    ensures After(ls, heading) == ls[i + 1..][UntilMark(ls[i + 1..])..]
  {
    hide FindLabel, UntilMark, LabelAt, Starts;
  }

  lemma PastSection(a: seq<string>, b: seq<string>, c: seq<string>, k: nat)
    requires k < |c|
    ensures (a + (b + c))[|a| + |b| + k] == c[k]
  {
  }

  lemma FoundInPrefix(ls1: seq<string>, before: seq<string>, at: nat, heading: string)
    requires |before| < at <= |ls1| && (forall k | 0 <= k < |before| :: LabelAt(before[k], heading).None?)
    requires ls1[..at][..|before|] == before && LabelAt(ls1[..at][|before|], heading).Some?
    ensures FindLabel(ls1, heading) == |before|
  {
    hide LabelAt, FindLabel;
    var i := |before|;
    assert ls1 == before + ls1[i..] && ls1[i..][0] == ls1[..at][i];
    LabelFoundAt(before, ls1[i..], heading);
  }

  /** A section found under its own name only, and a word written under the
      other: the lines up to the word have that section where it was. */
  lemma StillFound(text: string, heading: string, w: string) returns (tag: string)
    requires IsSectionName(heading) && IsWord(w) && FindLabel(Lines(text), heading) < FindLabel(Lines(text), Label(heading))
    ensures var ls, ls1 := Lines(text), Lines(Replace(text, Label(heading), w));
            var at := Place(ls, Label(heading));
            && |ls1| > at + 2 && ls1[at] == MARK + tag && ls1[at + 1] == "" && ls1[at + 2] == w
            && FindLabel(ls1, heading) == FindLabel(ls, heading) < at
            && ls1[..at] == (if FindLabel(ls, Label(heading)) < |ls| then ls[..at] else Trim(ls) + [""])
            && tag == (if FindLabel(ls, Label(heading)) < |ls| then LabelAt(ls[at], Label(heading)).value else Label(heading))
  {
    hide Lines, Replace, Put, Trim, IsTitle, Label, LabelAt, StripRight, Blank, IsSectionName, Plain, Strip, Starts;
    var ls, other := Lines(text), Label(heading);
    EitherIsSection(other, heading);
    LabelTwice(heading);
    tag := WriteAt(text, other, w);
    var ls1, i, at := Lines(Replace(text, other, w)), FindLabel(ls, heading), Place(ls, other);
    FindTrimmed(ls, heading);
    FoundInPrefix(ls1, ls[..i], at, heading);
  }

  lemma SamePrefix(x: seq<string>, y: seq<string>, i: nat, at: nat)
    requires i < at < |x| && at < |y| && x[..at] == y[..at] && x[at] == y[at]
    ensures x[i + 1..][..at - i] == y[i + 1..][..at - i] && x[i + 1..][at - i - 1] == x[at]
  {
    assert x[..at + 1] == x[..at] + [x[at]] && y[..at + 1] == y[..at] + [y[at]];
    assert x[i + 1..][..at - i] == x[..at + 1][i + 1..] && y[i + 1..][..at - i] == y[..at + 1][i + 1..];
  }

  /** A section found under its own name alone, and the first write under the
      other: the second goes to the earlier place, and leaves the first. */
  lemma FirstIsPassed(text: string, heading: string, w: string, second: string)
    requires IsSectionName(heading) && IsWord(w) && IsWord(second)
    requires FindLabel(Lines(text), heading) < FindLabel(Lines(text), Label(heading))
    ensures var ls, ls1 := Lines(text), Lines(Replace(text, Label(heading), w));
            var i, at := FindLabel(ls, heading), Place(ls, Label(heading));
            && |ls1| > i + 1 && UntilMark(ls1[i + 1..]) <= at
            && var end, m := Trim(Put(ls1, heading, second)), at + 5 - UntilMark(ls1[i + 1..]);
               |end| > m && end[m] == w
  {
    hide Lines, Replace, Put, Trim, Label, LabelAt, IsSectionName, FindLabel, UntilMark, Place, Starts;
    var tag := StillFound(text, heading, w);
    MarkStarts(tag);
    PassedAt(Lines(Replace(text, Label(heading), w)), heading, Place(Lines(text), Label(heading)), w, second);
  }

  /** The section passed ends at the same line whichever word comes later. */
  lemma SameEnd(text: string, heading: string)
    requires IsSectionName(heading) && FindLabel(Lines(text), heading) < FindLabel(Lines(text), Label(heading))
    ensures var x, y := Lines(Replace(text, Label(heading), "x")), Lines(Replace(text, Label(heading), "y"));
            var i := FindLabel(Lines(text), heading);
            |x| > i + 1 && |y| > i + 1 && UntilMark(x[i + 1..]) == UntilMark(y[i + 1..])
  {
    hide Lines, Replace, Put, Trim, Label, LabelAt, IsSectionName, FindLabel, UntilMark, Place, Starts;
    var ls, other := Lines(text), Label(heading);
    var i, at := FindLabel(ls, heading), Place(ls, other);
    var x, y := Lines(Replace(text, other, "x")), Lines(Replace(text, other, "y"));
    var tag := StillFound(text, heading, "x");
    var tag' := StillFound(text, heading, "y");
    MarkStarts(tag);
    SamePrefix(x, y, i, at);
    UntilPrefix(x[i + 1..], y[i + 1..], at - i - 1);
  }

  // ----- the last write wins -----

  /** Texts whose lines differ once tidied differ. */
  lemma EndsApart(t1: string, n1: string, w1: string, t2: string, n2: string, w2: string)
    requires IsSectionName(n1) && IsSectionName(n2)
    requires Trim(Put(Lines(t1), n1, w1)) != Trim(Put(Lines(t2), n2, w2))
    ensures StripRight(Replace(t1, n1, w1)) != StripRight(Replace(t2, n2, w2))
  {
    hide Lines, Replace, Put, Trim, StripRight, IsSectionName, Join;
    ReplacedEnds(t1, n1, w1);
    ReplacedEnds(t2, n2, w2);
    EndLines(t1, n1, w1);
    EndLines(t2, n2, w2);
  }

  lemma EndLines(text: string, name: string, body: string)
    requires IsSectionName(name)
    ensures Lines(Join(Trim(Put(Lines(text), name, body)))) == Trim(Put(Lines(text), name, body))
  {
    hide Lines, Put, Trim, IsSectionName, Join, OneLine;
    LinesAreLines(text);
    PutIsLines(Lines(text), name, body);
    TrimIsLines(Put(Lines(text), name, body));
    LinesJoin(Trim(Put(Lines(text), name, body)));
  }

  lemma EitherFinds(ls: seq<string>, heading: string)
    ensures FindLabel(ls, heading) <= FindLabel(ls, Label(heading))
  {
    hide LabelAt, Label;
    var k := FindLabel(ls, Label(heading));
    if k < |ls| { LabelledByBoth(ls[k], heading, Label(heading)); }
  }

  /** What comes after the section is a line that tidying cuts short: the first
      write takes it into the body, and the second drops it. */
  lemma DroppedEnd(text: string, name: string)
    requires IsSectionName(name) && !Survives(After(Lines(text), name))
    ensures Trim(Put(Lines(Replace(text, name, "x")), name, "y")) != Trim(Put(Lines(text), name, "y"))
  {
    hide Lines, Replace, Put, Trim, After, IsTitle, Label, LabelAt, StripRight, Blank, IsSectionName, Plain, Strip, Starts, NewLines, FindLabel;
    var ls, after := Lines(text), After(Lines(text), name);
    WordLines("x");
    WordLines("y");
    FoundAfter(ls, name);
    AfterStarts(ls, name);
    OneLineLeft(after);
    var before, section, end, tag := WrittenLines(text, name, "x");
    MarkIsNotBlank(after[0]);
    PutThere(ls, name, "y");
    TrimAppend(before + NewLines(tag, "y", false), after, 0);
    assert before + (NewLines(tag, "y", false) + after) == before + NewLines(tag, "y", false) + after;
    WordSection(tag, "y");
    WholeSection(ls, name, before, section, end, tag);
    var put := Put(Lines(Replace(text, name, "x")), name, "y");
    assert put == before + NewLines(tag, "y", true) by { assert NewLines(tag, "y", true) + [] == NewLines(tag, "y", true); }
    MarkStarts(tag);
    MarkIsNotBlank(MARK + tag);
    TrimAppend(before, NewLines(tag, "y", true), 0);
  }

  lemma OneLineLeft(after: seq<string>)
    requires after != [] && Starts(after[0]) && !Starts(Trim(after)[0])
    ensures |Trim(after)| == 1
  {
    hide Trim, StripRight, Blank, Starts;
    var n := TrimStops(after);
  }

  lemma WordSection(tag: string, w: string)
    requires IsWord(w)
    ensures |NewLines(tag, w, false)| == 4 && |Trim(NewLines(tag, w, true))| == 3
    ensures NewLines(tag, w, true)[0] == MARK + tag
  {
    hide StripRight, Strip, Lines, Blank;
    WordLines(w);
    EmptyIsBlank();
    var n := NewLines(tag, w, true);
    assert n == [MARK + tag, "", w, "", ""];
    var k := TrimStops(n);
    assert n[2] == w && n[3] == "" && n[4] == "";
    TrimKeeps(n, 2);
  }

  lemma WholeSection(ls: seq<string>, name: string, before: seq<string>, section: seq<string>, end: seq<string>, tag: string)
    requires IsSectionName(name) && FindLabel(ls, name) < |ls| && before == ls[..FindLabel(ls, name)]
    requires LabelAt(ls[FindLabel(ls, name)], name) == Some(tag) && IsTitle(tag) && section == NewLines(tag, "x", false)
    requires |end| == 2 && !Starts(end[0]) && end[1] == ""
    ensures Put(before + (section + end), name, "y") == before + (NewLines(tag, "y", true) + [])
  {
    hide LabelAt, Label, IsTitle, StripRight, Strip, Lines, Plain, Starts, Blank, IsSectionName, Put, NewLines, FindLabel, UntilMark, After;
    WordLines("x");
    TailLines(tag, "x", false);
    EmptyIsNoMark();
    var whole := section + end;
    NoMarkTail(section, end);
    TagOf(ls[FindLabel(ls, name)], name, tag);
    assert whole + [] == whole;
    PutOver(before, whole, [], name, tag, "y");
  }

  lemma NoMarkTail(a: seq<string>, b: seq<string>)
    requires a != [] && (forall i | 1 <= i < |a| :: !Starts(a[i])) && forall i | 0 <= i < |b| :: !Starts(b[i])
    ensures (a + b)[0] == a[0] && UntilMark((a + b)[1..]) == |a + b| - 1
  {
    hide Starts;
    var tail := (a + b)[1..];
    forall i | 0 <= i < |tail| ensures !Starts(tail[i]) {
      if i + 1 < |a| { assert tail[i] == a[i + 1]; } else { assert tail[i] == b[i + 1 - |a|]; }
    }
    NoMarks(tail);
  }

  lemma TagOf(l: string, name: string, tag: string)
    requires LabelAt(l, name) == Some(tag)
    ensures tag == name || tag == Label(name)
  {
    hide Label, Labelled;
  }

  /** Writing a section twice, under either of its names each time, is writing the
      last text, up to blanks at the end of the document, exactly when both names
      find the same line, or neither finds one, and what comes after the section
      survives the tidying of the end. */
  lemma LastWriteWins(text: string, heading: string, a: string, b: string)
    requires IsSectionName(heading) && EitherName(a, heading) && EitherName(b, heading)
    ensures (forall first: string, second: string | Plain(first) ::
               StripRight(Replace(Replace(text, a, first), b, second)) == StripRight(Replace(text, b, second)))
            <==> FindLabel(Lines(text), a) == FindLabel(Lines(text), b) && Survives(After(Lines(text), b))
  {
    hide Lines, Replace, Put, Trim, After, Label, StripRight, IsSectionName, Plain, FindLabel, Survives;
    if FindLabel(Lines(text), a) != FindLabel(Lines(text), b) {
      WritesApart(text, heading, a, b);
    } else if !Survives(After(Lines(text), b)) {
      EndIsDropped(text, heading, a, b);
    } else {
      forall first: string, second: string | Plain(first)
        ensures StripRight(Replace(Replace(text, a, first), b, second)) == StripRight(Replace(text, b, second))
      {
        EitherIsSection(b, heading);
        SameWrite(text, heading, a, b, first);
        LastWriteStays(text, b, first, second);
      }
    }
  }

  lemma EndIsDropped(text: string, heading: string, a: string, b: string)
    requires IsSectionName(heading) && EitherName(a, heading) && EitherName(b, heading)
    requires FindLabel(Lines(text), a) == FindLabel(Lines(text), b) && !Survives(After(Lines(text), b))
    ensures Plain("x") && StripRight(Replace(Replace(text, a, "x"), b, "y")) != StripRight(Replace(text, b, "y"))
  {
    hide Lines, Replace, Put, Trim, After, Label, StripRight, IsSectionName, Plain, FindLabel, Survives;
    EitherIsSection(b, heading);
    DroppedEnd(text, b);
    SameWrite(text, heading, a, b, "x");
    WordLines("x");
    EndsApart(Replace(text, b, "x"), b, "y", text, b, "y");
  }

  /** When the two names find different lines, the second write does not replace
      the first. */
  lemma WritesApart(text: string, heading: string, a: string, b: string)
    requires IsSectionName(heading) && EitherName(a, heading) && EitherName(b, heading)
    requires FindLabel(Lines(text), a) != FindLabel(Lines(text), b)
    ensures Plain("x") && Plain("y")
    ensures StripRight(Replace(Replace(text, a, "x"), b, "x")) != StripRight(Replace(text, b, "x"))
            || StripRight(Replace(Replace(text, a, "y"), b, "x")) != StripRight(Replace(text, b, "x"))
  {
    hide Lines, Replace, Put, Trim, Label, StripRight, IsSectionName, Plain, FindLabel, UntilMark, Place;
    WordLines("x");
    WordLines("y");
    EitherFinds(Lines(text), heading);
    EitherIsSection(b, heading);
    if a == heading {
      FirstStays(text, heading, "x", "x");
      FirstStays(text, heading, "y", "x");
    } else {
      FirstIsPassed(text, heading, "x", "x");
      FirstIsPassed(text, heading, "y", "x");
      SameEnd(text, heading);
    }
    EndsApart(Replace(text, a, "x"), b, "x", Replace(text, a, "y"), b, "x");
  }

  // ----- one write under either name -----

  /** A write under either name is the same write exactly when both names find
      the same line, or neither finds one. */
  lemma EitherNameWrites(text: string, heading: string)
    requires IsSectionName(heading)
    ensures (forall body: string | Plain(body) :: Replace(text, heading, body) == Replace(text, Label(heading), body))
            <==> FindLabel(Lines(text), heading) == FindLabel(Lines(text), Label(heading))
  {
    hide Lines, Replace, Label, IsSectionName, Plain, FindLabel;
    var ls := Lines(text);
    if FindLabel(ls, heading) == FindLabel(ls, Label(heading)) {
      forall body: string | Plain(body) ensures Replace(text, heading, body) == Replace(text, Label(heading), body) {
        SameWrite(text, heading, heading, Label(heading), body);
      }
    } else {
      EitherFinds(ls, heading);
      WordLines("x");
      WordLines("y");
      OtherPlace(text, heading);
    }
  }

  lemma OtherPlace(text: string, heading: string)
    requires IsSectionName(heading) && FindLabel(Lines(text), heading) < FindLabel(Lines(text), Label(heading))
    ensures Replace(text, heading, "x") != Replace(text, Label(heading), "x") || Replace(text, heading, "y") != Replace(text, Label(heading), "y")
  {
    hide Lines, Replace, Label, IsSectionName, FindLabel;
    OwnWord(text, heading, "x");
    OwnWord(text, heading, "y");
    OtherWord(text, heading);
  }

  /** Two lines below the heading found, a write has its word. */
  lemma OwnWord(text: string, heading: string, w: string)
    requires IsSectionName(heading) && IsWord(w) && FindLabel(Lines(text), heading) < |Lines(text)|
    ensures var ls1, i := Lines(Replace(text, heading, w)), FindLabel(Lines(text), heading); |ls1| > i + 2 && ls1[i + 2] == w
  {
    hide Lines, Replace, Label, IsSectionName, FindLabel, Trim, LabelAt, IsTitle, Put, After, StripRight, Strip, Blank;
    var tag := WriteAt(text, heading, w);
  }

  /** A write further down has the same line there for both words. */
  lemma OtherWord(text: string, heading: string)
    requires IsSectionName(heading) && FindLabel(Lines(text), heading) < FindLabel(Lines(text), Label(heading))
    ensures var x, y := Lines(Replace(text, Label(heading), "x")), Lines(Replace(text, Label(heading), "y"));
            var i := FindLabel(Lines(text), heading);
            |x| > i + 2 && |y| > i + 2 && x[i + 2] == y[i + 2]
  {
    hide Lines, Replace, Label, IsSectionName, FindLabel, Trim, LabelAt, IsTitle, Put, After, Starts, StripRight, Strip, Blank, Labelled, Place;
    var ls, other := Lines(text), Label(heading);
    var i, at := FindLabel(ls, heading), Place(ls, other);
    var tag := StillFound(text, heading, "x");
    var tag' := StillFound(text, heading, "y");
    SameAt(Lines(Replace(text, other, "x")), Lines(Replace(text, other, "y")), at, i + 2);
  }

  lemma SameAt(x: seq<string>, y: seq<string>, at: nat, k: nat)
    requires at + 2 < |x| && at + 2 < |y| && x[..at] == y[..at] && x[at] == y[at] && x[at + 1] == y[at + 1] && k < at + 2
    ensures x[k] == y[k]
  {
    if k < at { assert x[..at][k] == y[..at][k]; }
  }

  // ----- a write that is lost -----

  /** A document with the section under its own name only: written under the
      other name first and then under its own, it reads as the first. */
  lemma SecondWriteLost(text: string, heading: string, first: string, second: string)
    requires IsSectionName(heading) && Plain(first) && Plain(second)
    requires FindLabel(Lines(text), heading) < |Lines(text)| == FindLabel(Lines(text), Label(heading))
    ensures Section(Replace(Replace(text, Label(heading), first), heading, second), Canonical(heading)) == Some(Strip(first))
  {
    hide Lines, Replace, Put, Trim, IsTitle, Label, LabelAt, StripRight, Blank, IsSectionName, Plain, Strip, Starts, Canonical, Get, IsHeading,
      Name, NewLines, LastLine, Named, FindLabel, After;
    var ls, other, c := Lines(text), Label(heading), Canonical(heading);
    var front, section := Trim(ls) + [""], NewLines(other, first, true);
    var t1 := Replace(text, other, first);
    AppendedLines(text, heading, first);
    SectionMark(heading, first);
    var mid := AfterKeeps(ls, heading, front, section);
    var before, sec2, end, tag := WrittenLines(t1, heading, second);
    TrimAppend(mid, section, 0);
    var last := Trim(section) + [""];
    assert mid + Trim(section) + [""] == mid + last;
    LastReads(heading, first);
    assert before + (sec2 + (mid + last)) == before + sec2 + mid + last;
    GetConcat(before + sec2 + mid, last, c);
  }

  lemma SectionMark(heading: string, first: string)
    requires IsSectionName(heading) && Plain(first)
    ensures var section := NewLines(Label(heading), first, true); Starts(section[0]) && !Blank(section[0])
  {
    hide Plain, Starts, Blank, NewLines, Label;
    TailLines(Label(heading), first, true);
    MarkStarts(Label(heading));
    MarkIsNotBlank(MARK + Label(heading));
  }

  /** A new section at the end of the document is what is read of its name. */
  lemma LastReads(heading: string, first: string)
    requires IsSectionName(heading) && Plain(first)
    ensures var last := Trim(NewLines(Label(heading), first, true)) + [""];
            IsHeading(last[0]) && Get(last, Canonical(heading)) == Some(Strip(first))
  {
    hide Trim, IsTitle, Label, StripRight, Blank, Plain, Strip, Starts, Canonical, Get, IsHeading, Name, NewLines, LastLine, Named;
    var other := Label(heading);
    SameSection(heading);
    var rest := TrimmedSection(other, first);
    WrittenHeading(other);
    NewEnds(other, first);
    GetTrim(NewLines(other, first, true), Canonical(heading));
    GetNew(other, first, true, Canonical(heading));
  }

  lemma AppendedLines(text: string, heading: string, first: string)
    requires IsSectionName(heading) && FindLabel(Lines(text), Label(heading)) == |Lines(text)|
    ensures Lines(Replace(text, Label(heading), first)) == Trim(Lines(text)) + [""] + NewLines(Label(heading), first, true)
  {
    hide Lines, Replace, Put, Trim, Label, IsSectionName, NewLines, FindLabel;
    EitherIsSection(Label(heading), heading);
    LabelTwice(heading);
    ReplacedLines(text, Label(heading), first);
    PutAtEnd(Lines(text), Label(heading), first);
  }

  /** What comes after the section, with a new one put at the end. */
  lemma AfterKeeps(ls: seq<string>, heading: string, front: seq<string>, section: seq<string>) returns (mid: seq<string>)
    requires ls != [] && IsSectionName(heading) && FindLabel(ls, heading) < |ls| && front == Trim(ls) + [""]
    requires section != [] && Starts(section[0])
    ensures FindLabel(front + section, heading) < |front + section| && After(front + section, heading) == mid + section
  {
    hide Trim, LabelAt, Label, Starts, IsSectionName, StripRight, Blank, FindLabel, UntilMark, After;
    FindTrimmed(ls, heading);
    var i := FindLabel(ls, heading);
    var all := front + section;
    FoundInFront(ls[..i], front, section, heading);
    AfterThere(all, heading, i);
    var rest := all[i + 1..];
    assert rest[|front| - i - 1] == section[0];
    MarkBefore(rest, |front| - i - 1);
    var u := UntilMark(rest);
    mid := front[i + 1 + u..];
    CutAt(front, section, i, u);
  }

  lemma FoundInFront(before: seq<string>, front: seq<string>, section: seq<string>, heading: string)
    requires (forall k | 0 <= k < |before| :: LabelAt(before[k], heading).None?) && |before| < |front|
    requires front[..|before|] == before && LabelAt(front[|before|], heading).Some?
    ensures FindLabel(front + section, heading) == |before|
  {
    hide LabelAt, FindLabel;
    var rest := front[|before|..] + section;
    assert front + section == before + rest && rest[0] == front[|before|];
    LabelFoundAt(before, rest, heading);
  }

  lemma CutAt(front: seq<string>, section: seq<string>, i: nat, u: nat)
    requires i + 1 + u <= |front|
    ensures (front + section)[i + 1..][u..] == front[i + 1 + u..] + section
  {
  }

  /** So for "## Goal" with a body: the Chinese name does not find it, and a second
      write under "Goal" goes to the section that is not read. */
  lemma GoalIsLost(first: string, second: string)
    requires Plain(first) && Plain(second)
    ensures Section(Replace(Replace("## Goal\nold", "目标", first), "Goal", second), "Goal") == Some(Strip(first))
  {
    hide Plain, Strip, Replace, Section;
    GoalLines();
    SecondWriteLost("## Goal\nold", "Goal", first, second);
  }

  lemma GoalLines()
    ensures var ls := Lines("## Goal\nold");
            Label("Goal") == "目标" && Canonical("Goal") == "Goal" && IsSectionName("Goal")
            && FindLabel(ls, "Goal") < |ls| == FindLabel(ls, Label("Goal"))
  {
    hide Label, Canonical, LabelAt, IsSectionName, Lines;
    GoalNames();
    GoalText();
    GoalLabels();
    var ls := ["## Goal", "old"];
    assert ls[1..] == ["old"] && ls[1..][1..] == [];
  }

  lemma GoalText()
    ensures Lines("## Goal\nold") == ["## Goal", "old"]
  {
    hide Lines;
    assert OneLine("## Goal") && OneLine("old");
    LineOf("## Goal");
    LineOf("old");
    LinesAppend("## Goal", "old");
    assert "## Goal" + "\n" + "old" == "## Goal\nold";
  }

  lemma GoalLabels()
    ensures LabelAt("## Goal", "Goal").Some? && LabelAt("## Goal", "目标").None? && LabelAt("old", "目标").None?
  {
    hide Label, Canonical, Strip, IsTitle, Lines;
    GoalNames();
    LabelTwice("Goal");
    assert MARK + "Goal" == "## Goal";
    WrittenLabel("Goal", "Goal");
    assert "## Goal"[3..] == "Goal";
    assert !Labelled("## Goal", "目标") by { assert "目标"[0] != "Goal"[0]; }
    assert !Starts("old") by { assert MARK[0] != "old"[0]; }
    NoLabel("old", "目标");
  }
}
