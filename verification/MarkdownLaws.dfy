/** replace_section and markdown_sections as a lens: what was written is read
    back, the rest of the document stays, and the last write wins. */
module MarkdownLaws {
  import opened Utf8
  import opened Strings
  import opened TextLines
  import opened SectionNames
  import opened Markdown

  /** A heading both of whose names can stand on a line. */
  predicate IsSectionName(h: string) {
    IsTitle(h) && IsTitle(Label(h))
  }

  // ----- the new section -----

  lemma TailLines(tag: string, body: string, last: bool)
    requires Plain(body)
    ensures var n := NewLines(tag, body, last);
            |n| >= 2 && n[0] == MARK + tag && forall i | 1 <= i < |n| :: !Starts(n[i])
  {
    hide Strip;
    var sb := Lines(Strip(body));
    var n := NewLines(tag, body, last);
    forall i | 1 <= i < |n| ensures !Starts(n[i]) {
      if 2 <= i < 2 + |sb| { assert n[i] == sb[i - 2]; } else { assert n[i] == ""; }
    }
  }

  lemma NewBody(tag: string, body: string, last: bool)
    ensures var n := NewLines(tag, body, last); |n| >= 2 && Strip(Join(n[1..])) == Strip(body)
  {
    hide Join, Strip, Lines, Blank;
    var sb := Lines(Strip(body));
    var end := if last then ["", ""] else [""];
    var n := NewLines(tag, body, last);
    assert n[1..] == [""] + (sb + end);
    JoinCons("", sb + end);
    JoinAppend(sb, end);
    JoinLines(Strip(body));
    EndBlanks(last);
    assert Join(n[1..]) == "\n" + Strip(body) + ("\n" + Join(end));
    StripBlanks("\n", Strip(body), "\n" + Join(end));
    StripFacts(body);
  }

  lemma EndBlanks(last: bool)
    ensures Blank("\n") && Blank("\n" + Join(if last then ["", ""] else [""]))
  {
    assert ["", ""][1..] == [""];
  }

  /** The new section read on its own. */
  lemma GetNew(tag: string, body: string, last: bool, name: string)
    requires IsTitle(tag) && Plain(body)
    ensures var n := NewLines(tag, body, last);
            IsHeading(n[0]) && Get(n, name) == if name == Canonical(tag) then Some(Strip(body)) else None
  {
    hide Join, Strip, Lines, Canonical, IsHeading, Name, IsTitle, NewLines, Plain;
    var n := NewLines(tag, body, last);
    TailLines(tag, body, last);
    NewBody(tag, body, last);
    WrittenHeading(tag);
    forall i | 0 <= i < |n[1..]| ensures !IsHeading(n[1..][i]) { HeadingStarts(n[1..][i]); }
    GetOne(n[0], n[1..], name);
    assert n == [n[0]] + n[1..];
  }

  // ----- where the section is -----

  /** The label written is the label found. */
  lemma WrittenLabel(heading: string, tag: string)
    requires IsSectionName(heading) && (tag == heading || tag == Label(heading))
    ensures LabelAt(MARK + tag, heading) == Some(tag)
  {
    hide Label, Strip, IsTitle, Labelled, Name, IsHeading;
    WrittenHeading(tag);
    if Labelled(MARK + tag, heading) { LabelledName(MARK + tag, heading); }
  }

  /** The line found, and where its section ends. */
  lemma Found(ls: seq<string>, heading: string) returns (i: nat, tag: string, n: nat)
    requires FindLabel(ls, heading) < |ls| && IsSectionName(heading)
    ensures i == FindLabel(ls, heading) && n <= |ls[i + 1..]| && n == UntilMark(ls[i + 1..])
    ensures LabelAt(ls[i], heading) == Some(tag) && IsTitle(tag) && Labelled(ls[i], tag)
    ensures IsHeading(ls[i]) && Name(ls[i]) == tag && Canonical(tag) == Canonical(heading)
  {
    hide IsHeading, Name, Canonical, Label, Labelled, IsTitle;
    i := FindLabel(ls, heading);
    tag := LabelAt(ls[i], heading).value;
    n := UntilMark(ls[i + 1..]);
    LabelledName(ls[i], tag);
    SameSection(heading);
  }

  /** A section of the same name comes again later, and hides the one written. */
  predicate Repeated(ls: seq<string>, heading: string) {
    Get(After(ls, heading), Canonical(heading)).Some?
  }

  lemma DocumentSplits(ls: seq<string>, heading: string)
    requires FindLabel(ls, heading) < |ls|
    ensures var i := FindLabel(ls, heading);
            var replaced := [ls[i]] + ls[i + 1..][..UntilMark(ls[i + 1..])];
            ls == ls[..i] + (replaced + After(ls, heading))
  {
    hide LabelAt, Starts, FindLabel, UntilMark;
    var i := FindLabel(ls, heading);
    var rest := ls[i + 1..];
    var n := UntilMark(rest);
    SplitAt(ls, i, n);
  }

  lemma SplitAt<T>(s: seq<T>, i: nat, n: nat)
    requires i < |s| && i + 1 + n <= |s|
    ensures s == s[..i] + ([s[i]] + s[i + 1..][..n] + s[i + 1..][n..])
  {
  }

  lemma PutThere(ls: seq<string>, heading: string, body: string)
    requires ls != [] && FindLabel(ls, heading) < |ls|
    ensures var i := FindLabel(ls, heading);
            var section := NewLines(LabelAt(ls[i], heading).value, body, After(ls, heading) == []);
            Put(ls, heading, body) == ls[..i] + (section + After(ls, heading))
  {
    hide LabelAt, NewLines, After, Trim;
  }

  // ----- the sections after a put -----

  /** What comes before another section's heading, and its own name, do not
      matter to a section after it. */
  lemma {:induction false} GetPast(head: string, tail: seq<string>, after: seq<string>, name: string)
    requires IsHeading(head) && Canonical(Name(head)) != name && forall i | 0 <= i < |tail| :: !IsHeading(tail[i])
    ensures Get([head] + tail + after, name) == Get(after, name)
  {
    hide IsHeading, Canonical, Name, Body;
    GetTail(tail, after, name);
    assert ([head] + tail + after)[1..] == tail + after && ([head] + tail + after)[0] == head;
  }

  lemma {:induction false} GetTail(tail: seq<string>, after: seq<string>, name: string)
    requires forall i | 0 <= i < |tail| :: !IsHeading(tail[i])
    ensures Get(tail + after, name) == Get(after, name)
    decreases |tail|
  {
    hide IsHeading, Canonical, Name, Body;
    if tail == [] {
      assert tail + after == after;
    } else {
      GetTail(tail[1..], after, name);
      assert (tail + after)[1..] == tail[1..] + after && (tail + after)[0] == tail[0];
    }
  }

  /** The lines of the new section but the first are no headings. */
  lemma NewHead(tag: string, body: string, last: bool)
    requires IsTitle(tag) && Plain(body)
    ensures var n := NewLines(tag, body, last);
            && IsHeading(n[0]) && Name(n[0]) == tag && n == [n[0]] + n[1..]
            && forall i | 0 <= i < |n[1..]| :: !IsHeading(n[1..][i])
  {
    hide IsHeading, Name, Plain, NewLines, IsTitle, Starts;
    var n := NewLines(tag, body, last);
    TailLines(tag, body, last);
    WrittenHeading(tag);
    forall i | 0 <= i < |n[1..]| ensures !IsHeading(n[1..][i]) { HeadingStarts(n[1..][i]); }
  }

  /** One section in place of another of its name changes no section of another
      name, whatever the lines are. */
  lemma SwapSection(before: seq<string>, one: seq<string>, two: seq<string>, after: seq<string>, name: string)
    requires IsSection(one) && IsSection(two) && Canonical(Name(one[0])) != name && Canonical(Name(two[0])) != name
    ensures Get(before + (one + after), name) == Get(before + (two + after), name)
  {
    hide Get, IsHeading, Name, Canonical;
    SectionParts(one);
    SectionParts(two);
    GetPast(one[0], one[1..], after, name);
    GetPast(two[0], two[1..], after, name);
    HeadFirst(one, after);
    HeadFirst(two, after);
    GetConcat(before, one + after, name);
    GetConcat(before, two + after, name);
  }

  /** A heading and lines that are none. */
  predicate IsSection(ls: seq<string>) {
    ls != [] && IsHeading(ls[0]) && forall i | 1 <= i < |ls| :: !IsHeading(ls[i])
  }

  lemma SectionParts(ls: seq<string>)
    requires IsSection(ls)
    ensures ls == [ls[0]] + ls[1..] && forall i | 0 <= i < |ls[1..]| :: !IsHeading(ls[1..][i])
  {
    hide IsHeading;
  }

  lemma NewIsSection(tag: string, body: string, last: bool)
    requires IsTitle(tag) && Plain(body)
    ensures IsSection(NewLines(tag, body, last)) && Name(NewLines(tag, body, last)[0]) == tag
  {
    hide IsHeading, Name, Plain, NewLines, IsTitle;
    var n := NewLines(tag, body, last);
    NewHead(tag, body, last);
    forall i | 1 <= i < |n| ensures !IsHeading(n[i]) { assert n[i] == n[1..][i - 1]; }
  }

  /** The section that a put replaces, and the one it puts. */
  lemma Replaced(ls: seq<string>, heading: string, body: string) returns (before: seq<string>, old': seq<string>, section: seq<string>)
    requires ls != [] && IsSectionName(heading) && Plain(body) && FindLabel(ls, heading) < |ls|
    ensures ls == before + (old' + After(ls, heading)) && Put(ls, heading, body) == before + (section + After(ls, heading))
    ensures IsSection(old') && Canonical(Name(old'[0])) == Canonical(heading)
    ensures IsSection(section) && Canonical(Name(section[0])) == Canonical(heading)
  {
    hide Put, IsHeading, Name, Canonical, Label, NewLines, Strip, Plain, IsTitle, LabelAt, Labelled, After, IsSectionName, Starts, FindLabel, UntilMark;
    var i, tag, n := Found(ls, heading);
    before, section := ls[..i], NewLines(tag, body, After(ls, heading) == []);
    old' := [ls[i]] + ls[i + 1..][..n];
    PutThere(ls, heading, body);
    DocumentSplits(ls, heading);
    NewIsSection(tag, body, After(ls, heading) == []);
    OldIsSection(ls[i], ls[i + 1..], n);
  }

  lemma OldIsSection(head: string, rest: seq<string>, n: nat)
    requires IsHeading(head) && n == UntilMark(rest)
    ensures IsSection([head] + rest[..n])
  {
    hide IsHeading, Starts;
    var ls := [head] + rest[..n];
    forall i | 1 <= i < |ls| ensures !IsHeading(ls[i]) { HeadingStarts(rest[i - 1]); }
  }

  /** A put leaves every other section as it was, whatever the lines are. */
  lemma GetPutOthers(ls: seq<string>, heading: string, body: string, name: string)
    requires ls != [] && IsSectionName(heading) && Plain(body) && FindLabel(ls, heading) < |ls| && name != Canonical(heading)
    ensures Get(Put(ls, heading, body), name) == Get(ls, name)
  {
    hide Get, Put, IsHeading, Name, Canonical, Plain, After, IsSectionName, FindLabel, IsSection;
    var before, old', section := Replaced(ls, heading, body);
    SectionNotEmpty(old');
    SectionNotEmpty(section);
    SwapSection(before, old', section, After(ls, heading), name);
  }

  lemma SectionNotEmpty(ls: seq<string>)
    requires IsSection(ls)
    ensures ls != [] && IsHeading(ls[0])
  {
    hide IsHeading;
  }

  lemma HeadFirst(a: seq<string>, b: seq<string>)
    requires a != []
    ensures (a + b)[0] == a[0]
  {
  }

  /** The lines put at the end of a document without the section. */
  lemma GetPutNew(ls: seq<string>, heading: string, body: string, name: string)
    requires ls != [] && IsSectionName(heading) && Plain(body) && FindLabel(ls, heading) == |ls|
    ensures Get(Put(ls, heading, body), name) == if name == Canonical(heading) then Some(Strip(body)) else Get(Trim(ls) + [""], name)
  {
    hide Get, IsHeading, Name, Canonical, Label, NewLines, Strip, Trim, Plain, IsTitle;
    var tag := Label(heading);
    GetNew(tag, body, true, name);
    SameSection(heading);
    GetConcat(Trim(ls) + [""], NewLines(tag, body, true), name);
  }

  // ----- the end of the document -----

  lemma {:induction false} TrimAppend(a: seq<string>, b: seq<string>, k: nat)
    requires k < |b| && !Blank(b[k])
    ensures Trim(a + b) == a + Trim(b)
    decreases |b|
  {
    hide StripRight, Blank;
    var n := |b| - 1;
    assert (a + b)[..|a + b| - 1] == a + b[..n] && (a + b)[|a + b| - 1] == b[n];
    if Blank(b[n]) {
      assert b[..n][k] == b[k];
      TrimAppend(a, b[..n], k);
    }
  }

  lemma MarkIsNotBlank(l: string)
    ensures Starts(l) ==> !Blank(l)
  {
    if Blank(l) { BlankIsNoMark(l); }
  }

  /** The written section as it stands after the end was tidied: the line with
      the label comes first and no other line begins with "## ". */
  lemma TrimmedSection(tag: string, body: string) returns (rest: seq<string>)
    requires IsTitle(tag) && Plain(body)
    ensures Trim(NewLines(tag, body, true)) + [""] == [MARK + tag] + rest && UntilMark(rest) == |rest|
  {
    hide NewLines, Plain, StripRight, Blank, Trim, Starts, IsTitle;
    var section := NewLines(tag, body, true);
    TailLines(tag, body, true);
    var n := TrimStops(section);
    TitleStripped(tag);
    var trimmed := Trim(section);
    assert trimmed[0] == MARK + tag;
    rest := trimmed[1..] + [""];
    assert trimmed + [""] == [MARK + tag] + rest;
    StripRightCuts(section[n]);
    MarkOfPrefix(StripRight(section[n]), section[n][|StripRight(section[n])|..]);
    EmptyIsNoMark();
    forall i | 0 <= i < |rest| ensures !Starts(rest[i]) {
      if i + 1 < n { assert rest[i] == section[i + 1]; }
    }
    NoMarks(rest);
  }

  lemma EmptyIsNoMark()
    ensures !Starts("")
  {
  }

  lemma TitleStripped(tag: string)
    requires IsTitle(tag)
    ensures StripRight(MARK + tag) == MARK + tag
  {
    hide Strip;
    StripFacts(tag);
    TitleEnds(tag);
    StripsNothing(MARK + tag);
  }

  lemma TitleEnds(tag: string)
    requires IsTitle(tag)
    ensures !IsSpace(tag[|tag| - 1]) && !IsSpace((MARK + tag)[0]) && !IsSpace((MARK + tag)[|MARK + tag| - 1])
  {
    assert (MARK + tag)[|MARK + tag| - 1] == tag[|tag| - 1] && (MARK + tag)[0] == '#';
  }

  lemma {:induction false} NoMarks(ls: seq<string>)
    requires forall i | 0 <= i < |ls| :: !Starts(ls[i])
    ensures UntilMark(ls) == |ls|
  {
    if ls != [] { NoMarks(ls[1..]); }
  }

  // ----- the texts -----

  lemma PutIsLines(ls: seq<string>, heading: string, body: string)
    requires ls != [] && AllOneLine(ls) && IsSectionName(heading)
    ensures AllOneLine(Put(ls, heading, body))
  {
    hide LabelAt, Strip, Canonical, Name, IsHeading, Labelled, Label, OneLine, NewLines, IsTitle, Trim, After, FindLabel, UntilMark, Put, Starts;
    if FindLabel(ls, heading) < |ls| {
      var i, tag, n := Found(ls, heading);
      PutThere(ls, heading, body);
      NewIsLines(tag, body, After(ls, heading) == []);
      AfterIsLines(ls, heading);
    } else {
      TrimIsLines(ls);
      NewIsLines(Label(heading), body, true);
      EmptyIsLine();
      PutAtEnd(ls, heading, body);
    }
  }

  lemma PutAtEnd(ls: seq<string>, heading: string, body: string)
    requires ls != [] && FindLabel(ls, heading) == |ls|
    ensures Put(ls, heading, body) == Trim(ls) + [""] + NewLines(Label(heading), body, true)
  {
    hide LabelAt, Label, Trim, NewLines;
  }

  lemma AfterIsLines(ls: seq<string>, heading: string)
    requires AllOneLine(ls)
    ensures AllOneLine(After(ls, heading))
  {
    hide LabelAt, Label, Starts, OneLine;
  }

  lemma EmptyIsLine()
    ensures OneLine("")
  {
  }

  lemma NewIsLines(tag: string, body: string, last: bool)
    requires IsTitle(tag)
    ensures AllOneLine(NewLines(tag, body, last))
  {
    hide Strip, Lines;
    LinesAreLines(Strip(body));
    assert OneLine(MARK + tag);
  }

  lemma TrimIsLines(ls: seq<string>)
    requires ls != [] && AllOneLine(ls)
    ensures AllOneLine(Trim(ls))
  {
    hide Trim, StripRight;
    var n := TrimStops(ls);
    StripRightCuts(ls[n]);
    PartWithout(StripRight(ls[n]), ls[n][|StripRight(ls[n])|..], '\n');
  }

  /** The lines of a stripped text with a line end. */
  lemma StrippedLines(ls: seq<string>)
    requires ls != [] && AllOneLine(ls)
    ensures Lines(StripRight(Join(ls)) + "\n") == Trim(ls) + [""]
  {
    hide Lines, Join, StripRight, Trim;
    JoinTrim(ls);
    TrimIsLines(ls);
    LinesJoin(Trim(ls));
    LinesAppend(Join(Trim(ls)), "");
    EmptyLines();
    assert Join(Trim(ls)) + "\n" + "" == Join(Trim(ls)) + "\n";
  }

  lemma ReplacedLines(text: string, heading: string, body: string)
    requires IsSectionName(heading)
    ensures var ls := Lines(text);
            var put := Put(ls, heading, body);
            Lines(Replace(text, heading, body)) == if FindLabel(ls, heading) < |ls| then Trim(put) + [""] else put
  {
    hide Lines, Join, StripRight, Trim, Put, IsSectionName;
    var ls := Lines(text);
    LinesAreLines(text);
    PutIsLines(ls, heading, body);
    StrippedLines(Put(ls, heading, body));
    LinesJoin(Put(ls, heading, body));
  }

  /** The line at the end of the document is no heading without a name, unless the
      new section comes last. */
  predicate EndsNamed(ls: seq<string>, heading: string)
    requires ls != []
  {
    if FindLabel(ls, heading) < |ls| then After(ls, heading) == [] || Named(LastLine(After(ls, heading)))
    else Named(LastLine(ls))
  }

  lemma {:induction false} LastOf(a: seq<string>, b: seq<string>, k: nat)
    requires k < |b| && !Blank(b[k])
    ensures LastIndex(a + b) == |a| + LastIndex(b) && LastLine(a + b) == LastLine(b)
    decreases |b|
  {
    hide Blank;
    var n := |b| - 1;
    assert (a + b)[..|a + b| - 1] == a + b[..n] && (a + b)[|a + b| - 1] == b[n];
    if Blank(b[n]) {
      assert b[..n][k] == b[k];
      LastOf(a, b[..n], k);
    }
  }

  /** The new section's last line is named. */
  lemma NewEnds(tag: string, body: string)
    requires IsTitle(tag) && Plain(body)
    ensures Named(LastLine(NewLines(tag, body, true)))
  {
    hide IsHeading, Name, Plain, NewLines, IsTitle, Blank, LastIndex, StripRight, Trim;
    var section := NewLines(tag, body, true);
    NewHead(tag, body, true);
    var n := TrimStops(section);
    if n > 0 { assert section[n] == section[1..][n - 1]; } else { TitleNamed(tag); }
  }

  lemma TitleNamed(tag: string)
    requires IsTitle(tag)
    ensures tag != ""
  {
  }

  /** The lines of a put before what comes after the section. */
  lemma PutFront(ls: seq<string>, heading: string, body: string) returns (before: seq<string>, tag: string)
    requires ls != [] && IsSectionName(heading) && FindLabel(ls, heading) < |ls|
    ensures IsTitle(tag) && Put(ls, heading, body) == before + NewLines(tag, body, After(ls, heading) == []) + After(ls, heading)
  {
    hide Put, IsHeading, Name, Canonical, Label, NewLines, Strip, LabelAt, Labelled, After, IsTitle, Starts, IsSectionName, FindLabel, UntilMark;
    var i, n;
    i, tag, n := Found(ls, heading);
    before := ls[..i];
    PutThere(ls, heading, body);
    Regroup(before, NewLines(tag, body, After(ls, heading) == []), After(ls, heading));
  }

  lemma Regroup<T>(a: seq<T>, b: seq<T>, c: seq<T>)
    ensures a + (b + c) == a + b + c
  {
  }

  lemma PutEnds(ls: seq<string>, heading: string, body: string)
    requires ls != [] && IsSectionName(heading) && Plain(body) && FindLabel(ls, heading) < |ls| && EndsNamed(ls, heading)
    ensures Named(LastLine(Put(ls, heading, body)))
  {
    hide Put, NewLines, Plain, After, IsTitle, Blank, LastLine, Starts, Named, IsSectionName, FindLabel;
    var before, tag := PutFront(ls, heading, body);
    var after := After(ls, heading);
    if after == [] {
      var section := NewLines(tag, body, true);
      assert before + section + after == before + section;
      TailLines(tag, body, true);
      MarkStarts(tag);
      MarkIsNotBlank(section[0]);
      LastOf(before, section, 0);
      NewEnds(tag, body);
    } else {
      AfterStarts(ls, heading);
      MarkIsNotBlank(after[0]);
      LastOf(before + NewLines(tag, body, false), after, 0);
    }
  }

  lemma AfterStarts(ls: seq<string>, heading: string)
    requires After(ls, heading) != []
    ensures Starts(After(ls, heading)[0])
  {
    hide LabelAt, FindLabel, Starts;
  }

  lemma MarkStarts(tag: string)
    ensures Starts(MARK + tag)
  {
  }

  lemma GetPutOwn(ls: seq<string>, heading: string, body: string)
    requires ls != [] && IsSectionName(heading) && Plain(body) && FindLabel(ls, heading) < |ls|
    requires After(ls, heading) == [] || IsHeading(After(ls, heading)[0])
    ensures Get(Put(ls, heading, body), Canonical(heading))
         == if Repeated(ls, heading) then Get(After(ls, heading), Canonical(heading)) else Some(Strip(body))
  {
    hide Get, Put, IsHeading, Name, Canonical, Label, NewLines, Strip, Plain, IsTitle, LabelAt, Labelled, After, IsSectionName;
    var i, tag, n := Found(ls, heading);
    var before, after := ls[..i], After(ls, heading);
    var section := NewLines(tag, body, after == []);
    PutThere(ls, heading, body);
    GetNew(tag, body, after == [], Canonical(heading));
    GetConcat(section, after, Canonical(heading));
    HeadFirst(section, after);
    GetConcat(before, section + after, Canonical(heading));
  }

  // ----- the other sections -----

  /** The name of the last heading, as the reader files it. */
  function LastName(ls: seq<string>): Option<string>
    decreases |ls|
  {
    if ls == [] then None
    else
      var n := |ls| - 1;
      if IsHeading(ls[n]) then Some(Canonical(Name(ls[n]))) else LastName(ls[..n])
  }

  lemma {:induction false} LastNameConcat(a: seq<string>, b: seq<string>)
    ensures LastName(a + b) == if LastName(b).Some? then LastName(b) else LastName(a)
    decreases |b|
  {
    hide IsHeading, Name, Canonical;
    if b == [] {
      assert a + b == a;
    } else {
      LastNameConcat(a, b[..|b| - 1]);
      assert (a + b)[..|a + b| - 1] == a + b[..|b| - 1] && (a + b)[|a + b| - 1] == b[|b| - 1];
    }
  }

  /** The section of the last heading. */
  lemma {:induction false} LastSplit(ls: seq<string>) returns (l: nat)
    requires LastName(ls).Some?
    ensures l < |ls| && IsSection(ls[l..]) && Canonical(Name(ls[l])) == LastName(ls).value
    decreases |ls|
  {
    hide IsHeading, Name, Canonical;
    var n := |ls| - 1;
    if IsHeading(ls[n]) {
      l := n;
    } else {
      l := LastSplit(ls[..n]);
      assert ls[l..] == ls[..n][l..] + [ls[n]];
    }
  }

  lemma {:induction false} NoLastName(ls: seq<string>)
    requires LastName(ls) == None
    ensures forall i | 0 <= i < |ls| :: !IsHeading(ls[i])
    decreases |ls|
  {
    hide IsHeading, Name, Canonical;
    if ls != [] {
      NoLastName(ls[..|ls| - 1]);
      forall i | 0 <= i < |ls| ensures !IsHeading(ls[i]) { assert i < |ls| - 1 ==> ls[i] == ls[..|ls| - 1][i]; }
    }
  }

  lemma SectionName(ls: seq<string>)
    requires IsSection(ls)
    ensures LastName(ls) == Some(Canonical(Name(ls[0])))
  {
    hide IsHeading, Name, Canonical;
    SectionParts(ls);
    LastNameConcat([ls[0]], ls[1..]);
    NoName(ls[1..]);
    assert [ls[0]][..0] == [];
  }

  lemma {:induction false} NoName(ls: seq<string>)
    requires forall i | 0 <= i < |ls| :: !IsHeading(ls[i])
    ensures LastName(ls) == None
    decreases |ls|
  {
    hide IsHeading, Name, Canonical;
    if ls != [] { NoName(ls[..|ls| - 1]); }
  }

  /** A line that is neither blank nor a heading, put at the end, changes the
      section of the last heading and no other. */
  lemma TailTaken(ls: seq<string>, s: string, name: string)
    requires !IsHeading(s) && !Blank(s)
    ensures LastName(ls) != Some(name) ==> Get(ls + [s], name) == Get(ls, name)
    ensures LastName(ls) == Some(name) ==> Get(ls + [s], name) != Get(ls, name) && Get(ls + [s], name) != Some("")
  {
    hide IsHeading, Name, Canonical, Get, Blank, LastName, IsSection;
    if LastName(ls).Some? {
      var l := LastSplit(ls);
      var section := ls[l..];
      assert ls == ls[..l] + section && ls + [s] == ls[..l] + (section + [s]) && section[0] == ls[l];
      SectionNotEmpty(section);
      TailOfSection(section, s, name);
      HeadFirst(section, [s]);
      GetConcat(ls[..l], section, name);
      GetConcat(ls[..l], section + [s], name);
    } else {
      NoLastName(ls);
      NoHeadings(ls, name);
      NoHeadings(ls + [s], name);
    }
  }

  lemma TailOfSection(section: seq<string>, s: string, name: string)
    requires IsSection(section) && !IsHeading(s) && !Blank(s)
    ensures Canonical(Name(section[0])) != name ==> Get(section, name) == None && Get(section + [s], name) == None
    ensures Canonical(Name(section[0])) == name ==>
              && Get(section, name).Some? && Get(section + [s], name).Some? && Get(section + [s], name) != Get(section, name)
              && Get(section + [s], name) != Some("")
  {
    hide IsHeading, Name, Canonical, Get, Blank, Strip, Join;
    SectionParts(section);
    var head, tail := section[0], section[1..];
    GetOne(head, tail, name);
    GetOne(head, tail + [s], name);
    assert section + [s] == [head] + (tail + [s]);
    JoinLast(tail, s);
    EmptyStrips();
    BodyGrows(if tail == [] then "" else Join(tail), if tail == [] then "" else "\n", s);
    assert "" + s == s && "" + "" + s == s;
  }

  lemma EmptyStrips()
    ensures Strip("") == "" && Blank("\n") && Blank("")
  {
  }

  lemma BodyGrows(b: string, w: string, s: string)
    requires Blank(w) && !Blank(s)
    ensures Strip(b + w + s) != Strip(b) && Strip(b + w + s) != ""
  {
    hide Blank, StripLeft, StripRight;
    var t := w + s;
    assert b + w + s == b + t;
    BlankParts(w, s);
    BlankParts(b, t);
    StripFacts(b);
    StripFacts(b + t);
    if !Blank(b) {
      StripLeftAppend(b, t);
      StripRightKeeps(StripLeft(b), t);
      StripRightNothing(t);
      StripRightShortens(StripLeft(b));
    }
  }

  lemma StripRightShortens(s: string)
    ensures |StripRight(s)| <= |s|
  {
  }

  /** No other section is changed: the document does not end in a heading without a
      name; or it does, and the lines above end in a section of the name written
      and hold a nameless section that is empty. */
  predicate OthersStay(ls: seq<string>, heading: string)
    requires ls != []
  {
    || EndsNamed(ls, heading)
    || (var above := ls[..LastIndex(ls)]; LastName(above) == Some(Canonical(heading)) && Get(above, "") == Some(""))
  }

  /** A line that is a heading without a name, stripped, is one no more. */
  lemma UnnamedStripped(x: string)
    requires !Named(x)
    ensures IsHeading(x) && Canonical(Name(x)) == "" && !IsHeading(StripRight(x)) && !Blank(StripRight(x)) && !Blank(x)
  {
    hide StripRight, StripLeft, Blank, IsSpace, UpToReturn, Strip, Canonical;
    EmptyCanonical();
    HeadingStarts(x);
    MarkIsNotBlank(x);
    StripRightTwice(x);
    var t := x[3..];
    var n := UpToReturn(t);
    assert t == t[..n] + t[n..] && x == MARK + t;
    BlankName(t[..n]);
    BlankParts(t[..n], t[n..]);
    StripRightBlank(MARK, t);
    MarkStripped();
    assert !IsHeading("##") by { ShortIsNoHeading(); }
  }

  lemma ShortIsNoHeading()
    ensures !IsHeading("##")
  {
  }

  lemma EmptyCanonical()
    ensures Canonical("") == ""
  {
  }

  lemma BlankName(s: string)
    requires Strip(s) == ""
    ensures Blank(s)
  {
    StripFacts(s);
  }

  /** The sections of a document that ends in a heading without a name, before the
      end is tidied and after. */
  lemma UnnamedEndReads(front: seq<string>, back: seq<string>, name: string)
    requires back != [] && !Named(LastLine(back))
    ensures var ls, above := front + back, front + back[..LastIndex(back)];
            && Get(ls, name) == (if name == "" then Some("") else Get(above, name))
            && Get(front + Trim(back) + [""], name) == Get(above + [StripRight(LastLine(back))], name)
  {
    hide IsHeading, Name, Canonical, Get, Blank, StripRight, Trim, LastIndex, Named;
    var n := TrimStops(back);
    var x, above, blanks := back[n], front + back[..n], back[n + 1..];
    UnnamedStripped(x);
    assert front + back == above + [x] + blanks;
    forall i | 0 <= i < |blanks| ensures Blank(blanks[i]) { assert blanks[i] == back[n + 1 + i]; }
    GetBlankTails(above + [x], blanks, name);
    GetConcat(above, [x], name);
    GetAlone(x, name);
    assert front + Trim(back) + [""] == above + [StripRight(x)] + [""];
    EmptyIsBlank();
    GetBlankTail(above + [StripRight(x)], "", name);
  }

  /** What a write comes to in a document that ends in a heading without a name:
      the lines above it, before and after the write, and the line it becomes. */
  lemma UnnamedEndWritten(text: string, heading: string, body: string) returns (above: seq<string>, s: string)
    requires IsSectionName(heading) && Plain(body) && !EndsNamed(Lines(text), heading)
    ensures !IsHeading(s) && !Blank(s)
    ensures var was := Lines(text)[..LastIndex(Lines(text))];
            && LastName(above) == LastName(was)
            && (forall name | name != Canonical(heading) :: Get(above, name) == Get(was, name))
            && (forall name :: Section(text, name) == if name == "" then Some("") else Get(was, name))
            && (forall name | name != Canonical(heading) :: Section(Replace(text, heading, body), name) == Get(above + [s], name))
  {
    hide Lines, Replace, Put, Get, IsSectionName, Plain, Trim, After, Canonical, Strip, Named, LastIndex, IsHeading, Name, Blank, StripRight, LastName, FindLabel;
    var ls := Lines(text);
    ReplacedLines(text, heading, body);
    if FindLabel(ls, heading) < |ls| {
      above, s := FoundWritten(ls, heading, body);
    } else {
      above, s := ls[..LastIndex(ls)], StripRight(LastLine(ls));
      UnnamedStripped(LastLine(ls));
      forall name ensures Get(ls, name) == (if name == "" then Some("") else Get(above, name))
                          && Get(Trim(ls) + [""], name) == Get(above + [s], name)
      {
        UnnamedEndReads([], ls, name);
        assert [] + ls == ls && [] + ls[..LastIndex(ls)] == above && [] + Trim(ls) == Trim(ls);
      }
      forall name | name != Canonical(heading) ensures Get(Put(ls, heading, body), name) == Get(Trim(ls) + [""], name) {
        GetPutNew(ls, heading, body, name);
      }
    }
  }

  lemma FoundWritten(ls: seq<string>, heading: string, body: string) returns (above: seq<string>, s: string)
    requires ls != [] && IsSectionName(heading) && Plain(body) && FindLabel(ls, heading) < |ls| && !EndsNamed(ls, heading)
    ensures !IsHeading(s) && !Blank(s)
    ensures var was := ls[..LastIndex(ls)];
            && LastName(above) == LastName(was)
            && (forall name | name != Canonical(heading) :: Get(above, name) == Get(was, name))
            && (forall name :: Get(ls, name) == if name == "" then Some("") else Get(was, name))
            && (forall name :: Get(Trim(Put(ls, heading, body)) + [""], name) == Get(above + [s], name))
  {
    hide Put, Get, IsSectionName, Plain, Trim, After, Canonical, Named, LastIndex, IsHeading, Name, Blank, StripRight, LastName, FindLabel, IsSection, Starts;
    var after := After(ls, heading);
    var before, old', section := Replaced(ls, heading, body);
    AfterStarts(ls, heading);
    MarkIsNotBlank(after[0]);
    var p := LastIndex(after);
    LastOf(before + old', after, 0);
    TrimAppend(before + section, after, 0);
    Regroup(before, old', after);
    Regroup(before, section, after);
    UnnamedStripped(LastLine(after));
    s := StripRight(LastLine(after));
    above := before + section + after[..p];
    var was := before + old' + after[..p];
    assert ls[..LastIndex(ls)] == was;
    SwapName(before, old', section, after[..p]);
    forall name | name != Canonical(heading) ensures Get(above, name) == Get(was, name) {
      SectionNotEmpty(old');
      SectionNotEmpty(section);
      SwapSection(before, old', section, after[..p], name);
      Regroup(before, old', after[..p]);
      Regroup(before, section, after[..p]);
    }
    forall name
      ensures Get(ls, name) == (if name == "" then Some("") else Get(was, name))
      ensures Get(Trim(Put(ls, heading, body)) + [""], name) == Get(above + [s], name)
    {
      UnnamedEndReads(before + old', after, name);
      UnnamedEndReads(before + section, after, name);
    }
  }

  lemma SwapName(before: seq<string>, one: seq<string>, two: seq<string>, after: seq<string>)
    requires IsSection(one) && IsSection(two) && Canonical(Name(one[0])) == Canonical(Name(two[0]))
    ensures LastName(before + one + after) == LastName(before + two + after)
  {
    hide IsHeading, Name, Canonical, LastName;
    SectionName(one);
    SectionName(two);
    LastNameConcat(before, one);
    LastNameConcat(before, two);
    LastNameConcat(before + one, after);
    LastNameConcat(before + two, after);
  }

  /** Every other section of the document after replace_section is what it was. */
  lemma SectionsAfterReplace(text: string, heading: string, body: string, name: string)
    requires IsSectionName(heading) && Plain(body) && OthersStay(Lines(text), heading) && name != Canonical(heading)
    ensures Section(Replace(text, heading, body), name) == Section(text, name)
  {
    hide Lines, Replace, Put, Get, IsSectionName, Plain, Trim, After, Canonical, Named, LastLine, IsHeading, Name, EndsNamed, FindLabel, LastName, LastIndex, Blank;
    var ls := Lines(text);
    if EndsNamed(ls, heading) {
      ReplacedLines(text, heading, body);
      if FindLabel(ls, heading) < |ls| {
        PutEnds(ls, heading, body);
        GetTrim(Put(ls, heading, body), name);
        GetPutOthers(ls, heading, body, name);
      } else {
        GetPutNew(ls, heading, body, name);
        NotFoundEnds(ls, heading);
        GetTrim(ls, name);
      }
    } else {
      var above, s := UnnamedEndWritten(text, heading, body);
      TailTaken(above, s, name);
    }
  }

  lemma NotFoundEnds(ls: seq<string>, heading: string)
    requires ls != [] && EndsNamed(ls, heading) && FindLabel(ls, heading) == |ls|
    ensures Named(LastLine(ls))
  {
  }

  /** Replacing a section leaves every other as it was, for every body, exactly in
      two kinds of documents: those that do not end in a heading without a name;
      and those in which the heading above that end is of the name replaced, and a
      nameless section further up is empty as well. */
  lemma OthersUnchanged(text: string, heading: string)
    requires IsSectionName(heading)
    ensures (forall body: string, name: string | Plain(body) && name != Canonical(heading) ::
               Section(Replace(text, heading, body), name) == Section(text, name))
            <==> OthersStay(Lines(text), heading)
  {
    hide Lines, Replace, Get, IsSectionName, Plain, Canonical, Section, EndsNamed, LastName, LastIndex, IsHeading, Blank;
    var ls := Lines(text);
    if OthersStay(ls, heading) {
      forall body: string, name: string | Plain(body) && name != Canonical(heading)
        ensures Section(Replace(text, heading, body), name) == Section(text, name)
      {
        SectionsAfterReplace(text, heading, body, name);
      }
    } else {
      TwoBodies();
      var name := OtherChanged(text, heading, "x");
    }
  }

  lemma OtherChanged(text: string, heading: string, body: string) returns (name: string)
    requires IsSectionName(heading) && Plain(body) && !OthersStay(Lines(text), heading)
    ensures name != Canonical(heading) && Section(Replace(text, heading, body), name) != Section(text, name)
  {
    hide Lines, Replace, Get, IsSectionName, Plain, Canonical, Section, EndsNamed, LastName, LastIndex, IsHeading, Blank;
    var above, s := UnnamedEndWritten(text, heading, body);
    CanonicalNotEmpty(heading);
    name := if LastName(above).Some? && LastName(above) != Some(Canonical(heading)) then LastName(above).value else "";
    TailTaken(above, s, name);
    if LastName(above) == None { NothingNamed(above); }
  }

  lemma NothingNamed(ls: seq<string>)
    requires LastName(ls) == None
    ensures Get(ls, "") == None
  {
    hide IsHeading, Canonical, LastName;
    NoLastName(ls);
    NoHeadings(ls, "");
  }

  lemma CanonicalNotEmpty(heading: string)
    requires IsSectionName(heading)
    ensures Canonical(heading) != ""
  {
    hide Canonical, Label, Strip;
    LabelOfAlias(heading);
    EmptyLabel();
  }

  lemma EmptyLabel()
    ensures Label("") == ""
  {
  }

  /** A document that ends in a heading without a name: the section above takes in
      what is left of that heading, and the nameless section is gone. */
  lemma ScopeIsChanged(body: string)
    requires Plain(body)
    ensures var text := Join(["## Goal", "", "a", "", "## Scope", "", "b", "", "##  "]);
            var after := Replace(text, "Goal", body);
            && !OthersStay(Lines(text), "Goal")
            && Section(text, "Scope") == Some("b") && Section(after, "Scope") == Some("b\n\n##")
            && Section(text, "") == Some("") && Section(after, "") == None
  {
    hide Lines, Replace, Plain, OthersStay, Section, Join;
    var ls := ["## Goal", "", "a", "", "## Scope", "", "b", "", "##  "];
    LinesJoin(ls);
    GoalNames();
    ScopeBefore(Join(ls), ls);
    ScopeAfter(Join(ls), ls, body);
    ScopeNotKept(Join(ls), body);
  }

  lemma ScopeNotKept(text: string, body: string)
    requires IsSectionName("Goal") && Canonical("Goal") == "Goal" && Plain(body)
    requires Section(Replace(text, "Goal", body), "Scope") != Section(text, "Scope")
    ensures !OthersStay(Lines(text), "Goal")
  {
    hide Lines, Replace, Plain, OthersStay, Section, IsSectionName, Canonical;
    OthersUnchanged(text, "Goal");
  }

  /** The three headings of that document. */
  lemma ScopeHeadings()
    ensures IsHeading("## Goal") && Canonical(Name("## Goal")) == "Goal" && Labelled("## Goal", "Goal")
    ensures IsHeading("## Scope") && Canonical(Name("## Scope")) == "Scope" && Starts("## Scope")
    ensures IsHeading("##  ") && Canonical(Name("##  ")) == "" && Starts("##  ") && StripRight("##  ") == "##" && !IsHeading("##")
    ensures !Starts("") && !Starts("a") && !Starts("b")
  {
    hide Strip, Canonical;
    GoalNames();
    assert MARK + "Goal" == "## Goal" && MARK + "Scope" == "## Scope";
    WrittenHeading("Goal");
    ScopeTitle();
    WrittenHeading("Scope");
    NamelessHeading();
    ShortIsNoHeading();
    EmptyIsNoMark();
    assert "a"[0] != MARK[0] && "b"[0] != MARK[0];
  }

  lemma ScopeTitle()
    ensures IsTitle("Scope") && Canonical("Scope") == "Scope"
  {
    StripsNothing("Scope");
  }

  lemma NamelessHeading()
    ensures IsHeading("##  ") && Canonical(Name("##  ")) == "" && Starts("##  ") && StripRight("##  ") == "##"
  {
    assert "##  "[3..] == " ";
    assert UpToReturn(" ") == 1 by { NoReturn(" "); }
    assert " "[..1] == " " && " "[1..] == "";
    EmptyIsBlank();
    assert Blank(" ");
    StripFacts(" ");
    EmptyCanonical();
    assert "##" + "  " == "##  " && Blank("  ");
    StripRightBlank("##", "  ");
  }

  lemma ScopeBefore(text: string, ls: seq<string>)
    requires ls == ["## Goal", "", "a", "", "## Scope", "", "b", "", "##  "] && Lines(text) == ls
    ensures Section(text, "Scope") == Some("b") && Section(text, "") == Some("")
  {
    hide Lines, IsHeading, Canonical, Name, Get, Strip, Join, Starts;
    ScopeHeadings();
    var scope := ["## Scope"] + ["", "b", ""];
    ScopeLines();
    var goal := ["## Goal", "", "a", ""];
    assert ls == (goal + scope) + ["##  "];
    GetAlone("##  ", "Scope");
    GetAlone("##  ", "");
    GetOne("## Scope", ["", "b", ""], "Scope");
    GetConcat(goal, scope, "Scope");
    GetConcat(goal + scope, ["##  "], "Scope");
    GetConcat(goal + scope, ["##  "], "");
    WordBody();
  }

  lemma ScopeLines()
    ensures forall i | 0 <= i < 3 :: !IsHeading(["", "b", ""][i])
    ensures forall i | 0 <= i < 5 :: !IsHeading(["", "b", "", "##", ""][i])
  {
    hide IsHeading;
    ShortIsNoHeading();
    HeadingStarts("");
    HeadingStarts("b");
    EmptyIsNoMark();
    assert "b"[0] != MARK[0];
  }

  lemma ScopeAfter(text: string, ls: seq<string>, body: string)
    requires ls == ["## Goal", "", "a", "", "## Scope", "", "b", "", "##  "] && Lines(text) == ls && Plain(body) && IsSectionName("Goal")
    ensures Section(Replace(text, "Goal", body), "Scope") == Some("b\n\n##") && Section(Replace(text, "Goal", body), "") == None
  {
    hide Lines, IsHeading, Canonical, Name, Get, Strip, Join, Starts, After, Trim, Replace, Plain, NewLines, IsSectionName, FindLabel, LabelAt, IsTitle;
    GoalNames();
    ScopeHeadings();
    ScopeFound(ls);
    var before, section, end, tag := WrittenLines(text, "Goal", body);
    var rest := ["", "b", "", "##", ""];
    assert end == ["## Scope"] + rest;
    ScopeLines();
    GetOne("## Scope", rest, "Scope");
    GetOne("## Scope", rest, "");
    assert before + (section + end) == section + end;
    GetNew(tag, body, false, "Scope");
    GetNew(tag, body, false, "");
    GetConcat(section, end, "Scope");
    GetConcat(section, end, "");
    TailText("b");
    assert "b" + "\n\n##" == "b\n\n##";
  }

  lemma ScopeFound(ls: seq<string>)
    requires ls == ["## Goal", "", "a", "", "## Scope", "", "b", "", "##  "]
    ensures FindLabel(ls, "Goal") == 0 && After(ls, "Goal") == ["## Scope", "", "b", "", "##  "]
    ensures Trim(After(ls, "Goal")) == ["## Scope", "", "b", "", "##"]
  {
    hide IsHeading, Canonical, Name, Starts, StripRight, Labelled, Label, Blank;
    ScopeHeadings();
    assert LabelAt(ls[0], "Goal").Some?;
    var after := ["## Scope", "", "b", "", "##  "];
    assert ls[1..] == ["", "a", ""] + after;
    assert UntilMark(ls[1..]) == 3 by { ScopeMark(after); }
    assert ls[1..][3..] == after;
    MarkIsNotBlank("##  ");
    assert after[..4] == ["## Scope", "", "b", ""];
  }

  lemma ScopeMark(after: seq<string>)
    requires after != [] && Starts(after[0])
    ensures UntilMark(["", "a", ""] + after) == 3
  {
    hide Starts;
    EmptyIsNoMark();
    assert !Starts("a") by { ScopeHeadings(); }
    var ls := ["", "a", ""] + after;
    assert ls[0] == "" && ls[1] == "a" && ls[2] == "" && ls[3] == after[0];
  }

  lemma GoalNames()
    ensures Label("Goal") == "目标" && Canonical("Goal") == "Goal" && IsSectionName("Goal")
  {
    StripsNothing("Goal");
    StripsNothing("目标");
  }

  // ----- reading back -----

  /** What the reader finds after the section once the end is tidied: nothing, or
      a heading and no later section of the same name. */
  predicate Returns(ls: seq<string>, heading: string) {
    var after := After(ls, heading);
    after == [] || var end := Trim(after) + [""]; IsHeading(end[0]) && Get(end, Canonical(heading)) == None
  }

  /** The lines after the write, with the section as written and what comes after
      it tidied. */
  lemma WrittenLines(text: string, heading: string, body: string) returns (before: seq<string>, section: seq<string>, end: seq<string>, tag: string)
    requires IsSectionName(heading) && Plain(body) && FindLabel(Lines(text), heading) < |Lines(text)| && After(Lines(text), heading) != []
    ensures Lines(Replace(text, heading, body)) == before + (section + end) && end == Trim(After(Lines(text), heading)) + [""]
    ensures section == NewLines(tag, body, false) && IsTitle(tag) && Canonical(tag) == Canonical(heading)
    ensures before == Lines(text)[..FindLabel(Lines(text), heading)]
    ensures LabelAt(Lines(text)[FindLabel(Lines(text), heading)], heading) == Some(tag)
  {
    hide Lines, Replace, Put, IsSectionName, Plain, Trim, After, Canonical, Strip, IsHeading, Name, LabelAt, Labelled, NewLines, IsTitle,
      Blank, Starts, FindLabel;
    var ls := Lines(text);
    var i, n;
    i, tag, n := Found(ls, heading);
    var after := After(ls, heading);
    before, section, end := ls[..i], NewLines(tag, body, false), Trim(after) + [""];
    ReplacedLines(text, heading, body);
    PutThere(ls, heading, body);
    AfterStarts(ls, heading);
    MarkIsNotBlank(after[0]);
    TrimAppend(before + section, after, 0);
    assert before + (section + after) == before + section + after;
    assert before + section + Trim(after) + [""] == before + (section + end);
  }

  /** The same with nothing after the section. */
  lemma LastSection(text: string, heading: string, body: string)
    requires IsSectionName(heading) && Plain(body) && After(Lines(text), heading) == []
    ensures Section(Replace(text, heading, body), Canonical(heading)) == Some(Strip(body))
  {
    hide Lines, Replace, Put, Get, IsSectionName, Plain, Trim, After, Canonical, Strip, IsHeading, Name, LastLine, Named, Repeated;
    var ls := Lines(text);
    ReplacedLines(text, heading, body);
    if FindLabel(ls, heading) < |ls| {
      LastPutEnds(ls, heading, body);
      GetTrim(Put(ls, heading, body), Canonical(heading));
      GetPutOwn(ls, heading, body);
      NotRepeated(ls, heading);
    } else {
      GetPutNew(ls, heading, body, Canonical(heading));
    }
  }

  lemma LastPutEnds(ls: seq<string>, heading: string, body: string)
    requires ls != [] && IsSectionName(heading) && Plain(body) && FindLabel(ls, heading) < |ls| && After(ls, heading) == []
    ensures Named(LastLine(Put(ls, heading, body)))
  {
    hide Put, Named, LastLine, Plain, IsSectionName, After, FindLabel;
    PutEnds(ls, heading, body);
  }

  lemma NotRepeated(ls: seq<string>, heading: string)
    requires After(ls, heading) == []
    ensures !Repeated(ls, heading)
  {
    hide After, Canonical;
  }

  /** With something after the section: a heading lets the body end, anything else
      becomes part of it. */
  lemma SectionRead(text: string, heading: string, body: string)
    requires IsSectionName(heading) && Plain(body) && FindLabel(Lines(text), heading) < |Lines(text)| && After(Lines(text), heading) != []
    ensures var end := Trim(After(Lines(text), heading)) + [""];
            var read := Section(Replace(text, heading, body), Canonical(heading));
            && (Get(end, Canonical(heading)).Some? ==> read == Get(end, Canonical(heading)))
            && (Get(end, Canonical(heading)).None? && IsHeading(end[0]) ==> read == Some(Strip(body)))
            && (Get(end, Canonical(heading)).None? && !IsHeading(end[0]) && body == "x" ==> read != Some("x"))
  {
    hide Lines, Replace, Put, Get, IsSectionName, Plain, Trim, After, Canonical, Strip, IsHeading, Name, NewLines, IsTitle, FindLabel, Body;
    var c := Canonical(heading);
    var before, section, end, tag := WrittenLines(text, heading, body);
    NewHead(tag, body, false);
    HeadFirst(section, end);
    GetConcat(before, section + end, c);
    GetTail(section[1..], end, c);
    GetHead(section, end, c);
    if Get(end, c).None? {
      if IsHeading(end[0]) {
        GetNew(tag, body, false, c);
        GetConcat(section, end, c);
      } else if body == "x" {
        EndNotBlank(Lines(text), heading);
        LongerBody(tag, end);
      }
    }
  }

  /** The section replaced: the last there is has the new body; one that a heading
      ends, once the end is tidied, has it unless a later section of its name
      hides it; and tidying the end matters only when the document ends in a
      heading without a name. */
  lemma OwnAfterReplace(text: string, heading: string, body: string)
    requires IsSectionName(heading) && Plain(body)
    ensures var after, c := After(Lines(text), heading), Canonical(heading);
            var read := Section(Replace(text, heading, body), c);
            && (after == [] ==> read == Some(Strip(body)))
            && (after != [] ==>
                  var end := Trim(after) + [""];
                  && (Get(end, c).Some? ==> read == Get(end, c))
                  && (Get(end, c).None? && IsHeading(end[0]) ==> read == Some(Strip(body))))
            && (EndsNamed(Lines(text), heading) && (after == [] || IsHeading(after[0])) ==>
                  read == if Repeated(Lines(text), heading) then Get(after, c) else Some(Strip(body)))
  {
    hide Lines, Replace, Put, Get, IsSectionName, Plain, Trim, After, Canonical, Strip, Named, LastIndex, IsHeading, Name, FindLabel, Section, Repeated, EndsNamed;
    if After(Lines(text), heading) == [] {
      LastSection(text, heading, body);
      NotRepeated(Lines(text), heading);
    } else {
      FoundAfter(Lines(text), heading);
      SectionRead(text, heading, body);
      if EndsNamed(Lines(text), heading) && IsHeading(After(Lines(text), heading)[0]) { NamedEndRead(text, heading, body); }
    }
  }

  lemma NamedEndRead(text: string, heading: string, body: string)
    requires IsSectionName(heading) && Plain(body) && EndsNamed(Lines(text), heading)
    requires FindLabel(Lines(text), heading) < |Lines(text)| && After(Lines(text), heading) != [] && IsHeading(After(Lines(text), heading)[0])
    ensures Section(Replace(text, heading, body), Canonical(heading))
            == if Repeated(Lines(text), heading) then Get(After(Lines(text), heading), Canonical(heading)) else Some(Strip(body))
  {
    hide Lines, Replace, Put, Get, IsSectionName, Plain, Trim, After, Canonical, Strip, Named, LastIndex, IsHeading, Name, EndsNamed, FindLabel;
    var ls := Lines(text);
    ReplacedLines(text, heading, body);
    PutEnds(ls, heading, body);
    GetTrim(Put(ls, heading, body), Canonical(heading));
    GetPutOwn(ls, heading, body);
  }

  lemma GetHead(section: seq<string>, end: seq<string>, name: string)
    requires section != [] && IsHeading(section[0]) && Canonical(Name(section[0])) == name
    ensures Get(section + end, name)
         == if Get(section[1..] + end, name).Some? then Get(section[1..] + end, name) else Some(Body(section[1..] + end))
  {
    hide IsHeading, Canonical, Name, Body;
    assert (section + end)[1..] == section[1..] + end && (section + end)[0] == section[0];
  }

  lemma EndNotBlank(ls: seq<string>, heading: string)
    requires After(ls, heading) != []
    ensures !Blank((Trim(After(ls, heading)) + [""])[0])
  {
    hide After, StripRight, Blank, Trim, Starts;
    var after := After(ls, heading);
    AfterStarts(ls, heading);
    MarkIsNotBlank(after[0]);
    var n := TrimStops(after);
    StripRightTwice(after[0]);
  }

  lemma StripRightTwice(l: string)
    ensures StripRight(StripRight(l)) == StripRight(l)
    ensures Blank(StripRight(l)) ==> Blank(l)
  {
    StripRightCuts(l);
    BlankParts(StripRight(l), l[|StripRight(l)|..]);
  }

  /** The body that is read on past a line that is no heading. */
  lemma LongerBody(tag: string, end: seq<string>)
    requires IsTitle(tag) && end != [] && !IsHeading(end[0]) && !Blank(end[0])
    ensures Body(NewLines(tag, "x", false)[1..] + end) != "x"
  {
    hide IsHeading, Strip, Join, IsTitle, Blank, NewLines, Until;
    var word := ["", "x", ""];
    WordTail(tag);
    UntilPast(word, end);
    var m := Until(word + end);
    var rest := end[..m - 3];
    assert (word + end)[..m] == word + rest;
    JoinWord("x", rest);
    JoinNotBlank(rest);
    assert "x" + "\n\n" + Join(rest) == "x\n\n" + Join(rest);
    StripLonger(Join(rest));
  }

  lemma WordTail(tag: string)
    ensures NewLines(tag, "x", false)[1..] == ["", "x", ""]
    ensures forall i | 0 <= i < 3 :: !IsHeading(["", "x", ""][i])
  {
    hide Strip, IsHeading, Lines;
    XLines();
    EmptyIsNoMark();
    HeadingStarts("");
    HeadingStarts("x");
  }

  lemma JoinWord(w: string, rest: seq<string>)
    requires rest != []
    ensures Join(["", w, ""] + rest) == "\n" + (w + "\n\n" + Join(rest))
  {
    hide Join;
    JoinCons("", rest);
    JoinCons(w, [""] + rest);
    JoinCons("", [w] + ([""] + rest));
    assert [""] + ([w] + ([""] + rest)) == ["", w, ""] + rest;
    WordText(w, Join(rest));
  }

  lemma WordText(w: string, j: string)
    ensures "" + "\n" + (w + "\n" + ("" + "\n" + j)) == "\n" + (w + "\n\n" + j)
  {
  }

  lemma {:induction false} UntilPast(a: seq<string>, b: seq<string>)
    requires (forall i | 0 <= i < |a| :: !IsHeading(a[i])) && b != [] && !IsHeading(b[0])
    ensures Until(a + b) > |a|
    decreases |a|
  {
    hide IsHeading;
    if a == [] {
      assert a + b == b;
    } else {
      UntilPast(a[1..], b);
      assert (a + b)[1..] == a[1..] + b && (a + b)[0] == a[0];
    }
  }

  lemma JoinNotBlank(ls: seq<string>)
    requires ls != [] && !Blank(ls[0])
    ensures !Blank(Join(ls))
  {
    hide Blank, Join;
    JoinCons(ls[0], ls[1..]);
    assert ls == [ls[0]] + ls[1..];
    if ls[1..] != [] {
      BlankParts(ls[0] + "\n", Join(ls[1..]));
      BlankParts(ls[0], "\n");
    }
  }

  lemma StripLonger(j: string)
    requires !Blank(j)
    ensures Strip("\n" + ("x\n\n" + j)) != "x"
  {
    hide Blank, StripRight;
    var s := "x\n\n" + j;
    NewlineIsBlank();
    EmptyIsBlank();
    assert "\n" + s + "" == "\n" + s;
    StripBlanks("\n", s, "");
    assert s[0] == 'x';
    StripRightKeeps("x\n\n", j);
  }

  lemma NewlineIsBlank()
    ensures Blank("\n")
  {
  }

  /** Reading back what was written, for every body, works exactly for the
      documents in which nothing comes after the section, or, once the end is
      tidied, a heading does and no later section has the same name. */
  lemma ReadsBack(text: string, heading: string)
    requires IsSectionName(heading)
    ensures (forall body: string | Plain(body) :: Section(Replace(text, heading, body), Canonical(heading)) == Some(Strip(body)))
            <==> Returns(Lines(text), heading)
  {
    hide Lines, Replace, Get, IsSectionName, Plain, After, Canonical, Strip, Section, Trim, IsHeading, FindLabel, Repeated;
    var ls := Lines(text);
    if After(ls, heading) == [] {
      forall body: string | Plain(body)
        ensures Section(Replace(text, heading, body), Canonical(heading)) == Some(Strip(body))
      {
        LastSection(text, heading, body);
      }
    } else {
      FoundAfter(ls, heading);
      forall body: string | Plain(body) && Returns(ls, heading)
        ensures Section(Replace(text, heading, body), Canonical(heading)) == Some(Strip(body))
      {
        SectionRead(text, heading, body);
      }
      TwoBodies();
      SectionRead(text, heading, "x");
      SectionRead(text, heading, "y");
    }
  }

  lemma FoundAfter(ls: seq<string>, heading: string)
    requires After(ls, heading) != []
    ensures FindLabel(ls, heading) < |ls|
  {
  }

  lemma TwoBodies()
    ensures Plain("x") && Plain("y") && Strip("x") == "x" && Strip("y") == "y"
  {
    StripsNothing("x");
    StripsNothing("y");
    LineOf("x");
    LineOf("y");
  }

  // ----- a line without a name -----

  /** A "## " line without a name ends the section that is replaced but is not
      read as a heading: it comes back as part of the new body. */
  lemma UnnamedLineComesBack(h: string)
    requires IsSectionName(h)
    ensures var text := MARK + h + "\n" + MARK;
            !Returns(Lines(text), h) && Plain("x")
            && Section(Replace(text, h, "x"), Canonical(h)) == Some("x\n\n##")
  {
    hide Strip, StripRight, IsTitle, Label, Canonical, Name, LabelAt, IsHeading, Get, Put, After, Trim, Join, FindLabel;
    UnnamedLines(h);
    TwoBodies();
    UnnamedPut(h);
    ReplacedLines(MARK + h + "\n" + MARK, h, "x");
    UnnamedTrim(h);
    UnnamedRead(h);
    UnnamedEnd();
  }

  lemma UnnamedEnd()
    ensures Trim([MARK]) == ["##"] && !IsHeading((Trim([MARK]) + [""])[0])
  {
    hide StripRight;
    MarkStripped();
    assert [MARK][..0] == [];
  }

  lemma UnnamedPut(h: string)
    requires IsSectionName(h)
    ensures var ls := [MARK + h, MARK];
            FindLabel(ls, h) == 0 && Put(ls, h, "x") == [MARK + h, "", "x", "", MARK] && After(ls, h) == [MARK]
  {
    hide Strip, StripRight, IsTitle, Label, Canonical, Name, LabelAt, IsHeading, Trim;
    var ls := [MARK + h, MARK];
    WrittenLabel(h, h);
    UnnamedMark();
    assert ls[1..] == [MARK] && UntilMark(ls[1..]) == 0;
    assert After(ls, h) == [MARK] by { assert [MARK][0..] == [MARK]; }
    XLines();
    assert ls[..0] == [];
  }

  lemma UnnamedTrim(h: string)
    ensures Trim([MARK + h, "", "x", "", MARK]) + [""] == [MARK + h, "", "x", "", "##", ""]
  {
    hide StripRight, Starts;
    var put := [MARK + h, "", "x", "", MARK];
    UnnamedMark();
    MarkIsNotBlank(MARK);
    MarkStripped();
    assert put[..4] == [MARK + h, "", "x", ""];
  }

  lemma UnnamedRead(h: string)
    requires IsTitle(h)
    ensures Get([MARK + h, "", "x", "", "##", ""], Canonical(h)) == Some("x\n\n##")
  {
    hide Strip, IsTitle, Canonical, Name, IsHeading, Get, Join;
    var tail := ["", "x", "", "##", ""];
    WrittenHeading(h);
    assert [MARK + h, "", "x", "", "##", ""] == [MARK + h] + tail;
    forall i | 0 <= i < |tail| ensures !IsHeading(tail[i]) { HeadingStarts(tail[i]); }
    GetOne(MARK + h, tail, Canonical(h));
    TailText("x");
    assert "x" + "\n\n##" == "x\n\n##";
  }

  lemma UnnamedLines(h: string)
    requires IsTitle(h)
    ensures Lines(MARK + h + "\n" + MARK) == [MARK + h, MARK]
  {
    hide Strip;
    LinesAppend(MARK + h, MARK);
    assert OneLine(MARK + h) && OneLine(MARK);
    LineOf(MARK + h);
    LineOf(MARK);
  }

  lemma UnnamedMark()
    ensures Starts(MARK) && !IsHeading(MARK)
  {
    assert MARK[3..] == "";
  }

  lemma XLines()
    ensures Lines(Strip("x")) == ["x"]
  {
    StripsNothing("x");
    LineOf("x");
  }

  lemma MarkStripped()
    ensures StripRight(MARK) == "##"
  {
    assert MARK[..2] == "##";
  }

  lemma TailText(w: string)
    requires w == "x" || w == "b"
    ensures Strip(Join(["", w, "", "##", ""])) == w + "\n\n##"
  {
    hide Strip, Join;
    var rest := ["##", ""];
    JoinWord(w, rest);
    assert ["", w, ""] + rest == ["", w, "", "##", ""];
    JoinCons("##", [""]);
    JoinCons("", []);
    assert [""] + [] == [""] && ["##"] + [""] == rest;
    var t := w + "\n\n##";
    assert "\n" + (w + "\n\n" + ("##" + "\n" + "")) == "\n" + t + "\n";
    NewlineIsBlank();
    StripBlanks("\n", t, "\n");
    WordStrips(t);
  }

  lemma WordStrips(t: string)
    requires t == "b" || t == "x\n\n##" || t == "b\n\n##"
    ensures Strip(t) == t
  {
    StripsNothing(t);
  }

  lemma WordBody()
    ensures Strip(Join(["", "b", ""])) == "b"
  {
    hide Strip, Join;
    JoinCons("", ["b", ""]);
    JoinCons("b", [""]);
    JoinCons("", []);
    assert [""] + [] == [""] && ["b"] + [""] == ["b", ""] && [""] + ["b", ""] == ["", "b", ""];
    assert "" + "\n" + ("b" + "\n" + "") == "\n" + "b" + "\n";
    NewlineIsBlank();
    StripBlanks("\n", "b", "\n");
    WordStrips("b");
  }

  // ----- the loop -----

  /** markdown_sections: one pass, each heading overwriting an earlier one of
      its name. */
  method MarkdownSections(text: string) returns (sections: map<string, string>)
    ensures forall name :: (if name in sections then Some(sections[name]) else None) == Section(text, name)
  {
    var ls := Lines(text);
    sections := map[];
    var i := 0;
    while i < |ls|
      invariant i <= |ls|
      invariant forall name :: Get(ls, name) == if Get(ls[i..], name).Some? then Get(ls[i..], name)
                                                else if name in sections then Some(sections[name]) else None
    {
      ghost var before := sections;
      if IsHeading(ls[i]) { sections := sections[Canonical(Name(ls[i])) := Body(ls[i + 1..])]; }
      forall name
        ensures Get(ls, name) == if Get(ls[i + 1..], name).Some? then Get(ls[i + 1..], name)
                                 else if name in sections then Some(sections[name]) else None
      {
        GetStep(ls, i, name);
      }
      i := i + 1;
    }
    assert ls[|ls|..] == [];
  }

  lemma GetStep(ls: seq<string>, i: nat, name: string)
    requires i < |ls|
    ensures Get(ls[i..], name)
         == if Get(ls[i + 1..], name).Some? || !IsHeading(ls[i]) || Canonical(Name(ls[i])) != name then Get(ls[i + 1..], name)
            else Some(Body(ls[i + 1..]))
  {
    hide IsHeading, Canonical, Name, Body;
    assert ls[i..][1..] == ls[i + 1..] && ls[i..][0] == ls[i];
  }
}
