/** The names of sections, and reading and replacing one, said of the text
    itself. */
module SectionMeaning {
  import opened Strings
  import opened Utf8
  import opened TextLines
  import opened SectionNames
  import opened Markdown

  // ----- the names -----

  /** Names of sections: the Chinese one, and the one they are filed under. */
  predicate PairsTwo(alias: string, name: string) {
    || (alias == "目标" && name == "Goal")
    || (alias == "目的" && name == "Purpose")
    || (alias == "背景" && name == "Background")
    || (alias == "范围" && name == "Scope")
    || (alias == "原因" && name == "Why")
    || (alias == "约束" && name == "Constraints")
    || (alias == "阶段" && name == "Phase")
  }

  predicate PairsThree(alias: string, name: string) {
    || (alias == "非目标" && name == "Non-goals")
    || (alias == "已完成" && name == "Completed")
    || (alias == "进行中" && name == "In Progress")
    || (alias == "待处理" && name == "Pending")
    || (alias == "已阻塞" && name == "Blocked")
  }

  predicate PairsFourA(alias: string, name: string) {
    || (alias == "验收标准" && name == "Acceptance Criteria")
    || (alias == "期望结果" && name == "Desired Outcome")
    || (alias == "设计方向" && name == "Design Direction")
    || (alias == "意图审查" && name == "Intent Review")
    || (alias == "审查反馈" && name == "Review Feedback")
    || (alias == "单元测试" && name == "Unit Tests")
  }

  predicate PairsFourB(alias: string, name: string) {
    || (alias == "类型检查" && name == "Type Check")
    || (alias == "集成测试" && name == "Integration Tests")
    || (alias == "最新检查" && name == "Latest Check")
    || (alias == "上次会话" && name == "Last Session")
    || (alias == "当前状态" && name == "Current State")
    || (alias == "已知问题" && name == "Known Problems")
  }

  predicate PairsFive(alias: string, name: string) {
    || (alias == "不得演变成" && name == "Must Not Become")
    || (alias == "取舍优先级" && name == "Trade-off Priorities")
    || (alias == "执行优先级" && name == "Execution Priority")
    || (alias == "下一步行动" && name == "Next Action")
    || (alias == "已修改文件" && name == "Files Changed")
    || (alias == "重要上下文" && name == "Important Context")
    || (alias == "建议的下一步行动" && name == "Next Recommended Action")
  }

  /** The Chinese name and the name a section is filed under. */
  predicate Pair(alias: string, name: string) {
    PairsTwo(alias, name) || PairsThree(alias, name) || PairsFourA(alias, name) || PairsFourB(alias, name) || PairsFive(alias, name)
  }

  lemma PairsTwoAre(alias: string, name: string)
    requires PairsTwo(alias, name)
    ensures Canonical(alias) == name && Label(name) == alias && alias != name
  {
    hide Canonical1, Canonical2, Canonical3, Label4, Label5, Label6;
  }

  lemma PairsThreeAre(alias: string, name: string)
    requires PairsThree(alias, name)
    ensures Canonical(alias) == name && Label(name) == alias && alias != name
  {
    hide Canonical0, Canonical2, Canonical3, Label0, Label2, Label4, Label5, Label6;
  }

  lemma PairsFourAAre(alias: string, name: string)
    requires PairsFourA(alias, name)
    ensures Canonical(alias) == name && Label(name) == alias && alias != name
  {
    hide Canonical0, Canonical1, Canonical3, Label0, Label1, Label3;
  }

  lemma PairsFourBAre(alias: string, name: string)
    requires PairsFourB(alias, name)
    ensures Canonical(alias) == name && Label(name) == alias && alias != name
  {
    hide Canonical0, Canonical1, Canonical3, Label0, Label1, Label5;
  }

  lemma PairsFiveAre(alias: string, name: string)
    requires PairsFive(alias, name)
    ensures Canonical(alias) == name && Label(name) == alias && alias != name
  {
    hide Canonical0, Canonical1, Canonical2, Label0, Label1, Label2;
  }

  lemma CanonicalTwo(x: string)
    requires Canonical(x) != x && |x| <= 2
    ensures PairsTwo(x, Canonical(x))
  {
    hide Canonical1, Canonical2, Canonical3;
  }

  lemma CanonicalThree(x: string)
    requires Canonical(x) != x && |x| == 3
    ensures PairsThree(x, Canonical(x))
  {
    hide Canonical0, Canonical2, Canonical3;
  }

  lemma CanonicalFour(x: string)
    requires Canonical(x) != x && |x| == 4
    ensures PairsFourA(x, Canonical(x)) || PairsFourB(x, Canonical(x))
  {
    hide Canonical0, Canonical1, Canonical3;
  }

  lemma CanonicalFive(x: string)
    requires Canonical(x) != x && |x| >= 5
    ensures PairsFive(x, Canonical(x))
  {
    hide Canonical0, Canonical1, Canonical2;
  }

  lemma CanonicalPairs(x: string)
    requires Canonical(x) != x
    ensures Pair(x, Canonical(x))
  {
    hide Canonical, PairsTwo, PairsThree, PairsFourA, PairsFourB, PairsFive;
    if |x| <= 2 { CanonicalTwo(x); } else if |x| == 3 { CanonicalThree(x); } else if |x| == 4 { CanonicalFour(x); } else { CanonicalFive(x); }
  }

  /** The two maps are this table, read either way, and leave every name that is not
      in it as it is. */
  lemma TableIs(alias: string, name: string)
    ensures Pair(alias, name) <==> Canonical(alias) == name && Label(name) == alias && alias != name
    ensures (forall x :: !Pair(alias, x)) ==> Canonical(alias) == alias
    ensures (forall x :: !Pair(x, name)) ==> Label(name) == name
  {
    hide Canonical, Label, PairsTwo, PairsThree, PairsFourA, PairsFourB, PairsFive;
    if PairsTwo(alias, name) { PairsTwoAre(alias, name); }
    if PairsThree(alias, name) { PairsThreeAre(alias, name); }
    if PairsFourA(alias, name) { PairsFourAAre(alias, name); }
    if PairsFourB(alias, name) { PairsFourBAre(alias, name); }
    if PairsFive(alias, name) { PairsFiveAre(alias, name); }
    if Canonical(alias) != alias { CanonicalPairs(alias); }
    if Label(name) != name {
      SameSection(name);
      CanonicalPairs(Label(name));
    }
  }

  // ----- headings -----

  /** The line is "## ", a name, and blanks; a carriage return can only be among the
      blanks. */
  predicate ReadsAs(l: string, name: string, blanks: string) {
    l == "## " + name + blanks && name != "" && '\r' !in name && Blank(blanks)
  }

  /** A line is a heading exactly when it reads so, and then, however it is read so,
      its name is the name, stripped. */
  lemma HeadingIs(l: string)
    ensures IsHeading(l) <==> exists name, blanks :: ReadsAs(l, name, blanks)
    ensures IsHeading(l) ==> forall name, blanks | ReadsAs(l, name, blanks) :: Name(l) == Strip(name)
  {
    hide Blank, Strip, UpToReturn;
    if IsHeading(l) {
      var t := l[3..];
      var n := UpToReturn(t);
      assert l == "## " + t[..n] + t[n..];
      assert ReadsAs(l, t[..n], t[n..]);
    }
    forall name, blanks | ReadsAs(l, name, blanks) ensures IsHeading(l) && Name(l) == Strip(name) { ReadHeading(l, name, blanks); }
  }

  lemma ReadHeading(l: string, name: string, blanks: string)
    requires ReadsAs(l, name, blanks)
    ensures IsHeading(l) && Name(l) == Strip(name)
  {
    hide Blank, Strip, UpToReturn;
    var t := l[3..];
    assert t == name + blanks;
    ReturnAfter(name, blanks);
    var n := UpToReturn(t);
    var mid := t[|name|..n];
    assert t[..n] == name + mid && blanks == mid + t[n..];
    BlankParts(mid, t[n..]);
    StripBlanks("", name, mid);
    assert "" + name + mid == t[..n];
    EmptyIsBlank();
  }

  /** The line has a tag, and blanks after it. */
  predicate Tagged(l: string, tag: string, blanks: string) {
    l == "## " + tag + blanks && Blank(blanks)
  }

  lemma TaggedIs(l: string, tag: string)
    ensures Labelled(l, tag) <==> exists blanks :: Tagged(l, tag, blanks)
  {
    hide Blank;
    if Labelled(l, tag) {
      var t := l[3..];
      assert l == "## " + tag + t[|tag|..];
      assert Tagged(l, tag, t[|tag|..]);
    }
    if blanks :| Tagged(l, tag, blanks) {
      assert l[3..] == tag + blanks;
    }
  }

  // ----- reading -----

  predicate Heads(l: string, name: string) {
    IsHeading(l) && Canonical(Name(l)) == name
  }

  /** From its heading to the line before the next heading, or to the end. */
  predicate Spans(ls: seq<string>, i: int, j: int) {
    && 0 <= i < j <= |ls| && IsHeading(ls[i]) && (forall k | i < k < j :: !IsHeading(ls[k]))
    && (j < |ls| ==> IsHeading(ls[j]))
  }

  /** The last section of a name. */
  predicate LastOf(ls: seq<string>, name: string, i: int, j: int) {
    Spans(ls, i, j) && Heads(ls[i], name) && forall k | i < k < |ls| :: !Heads(ls[k], name)
  }

  function Between(ls: seq<string>, i: int, j: int): string
    requires 0 <= i < j <= |ls|
  {
    if j == i + 1 then "" else Strip(Join(ls[i + 1..j]))
  }

  lemma {:induction false} GetNone(ls: seq<string>, name: string)
    ensures Get(ls, name) == None <==> forall k | 0 <= k < |ls| :: !Heads(ls[k], name)
    decreases |ls|
  {
    hide IsHeading, Canonical, Name, Body;
    if ls != [] {
      GetNone(ls[1..], name);
      assert forall k | 1 <= k < |ls| :: ls[k] == ls[1..][k - 1];
    }
  }

  lemma {:induction false} GetLast(ls: seq<string>, name: string, i: int, j: int)
    requires LastOf(ls, name, i, j)
    ensures Get(ls, name) == Some(Between(ls, i, j))
    decreases |ls|
  {
    hide IsHeading, Canonical, Name, Strip, Join;
    var rest := ls[1..];
    assert forall k | 1 <= k < |ls| :: ls[k] == rest[k - 1];
    if i == 0 {
      GetNone(rest, name);
      UntilIs(rest, j - 1);
      assert rest[..j - 1] == ls[1..j];
    } else {
      assert rest[i - 1] == ls[i];
      GetLast(rest, name, i - 1, j - 1);
      assert rest[i..j - 1] == ls[i + 1..j];
    }
  }

  lemma UntilIs(ls: seq<string>, n: nat)
    requires n <= |ls| && (forall k | 0 <= k < n :: !IsHeading(ls[k])) && (n < |ls| ==> IsHeading(ls[n]))
    ensures Until(ls) == n
  {
    hide IsHeading;
  }

  lemma {:induction false} HasLast(ls: seq<string>, name: string, k: nat) returns (i: nat, j: nat)
    requires k < |ls| && Heads(ls[k], name)
    ensures LastOf(ls, name, i, j)
    decreases |ls| - k
  {
    hide IsHeading, Canonical, Name;
    if later :| k < later < |ls| && Heads(ls[later], name) {
      i, j := HasLast(ls, name, later);
    } else {
      i := k;
      var rest := ls[k + 1..];
      j := k + 1 + Until(rest);
      assert forall x | k < x < |ls| :: ls[x] == rest[x - k - 1];
    }
  }

  lemma GetIs(ls: seq<string>, name: string)
    ensures Get(ls, name) == None <==> forall k | 0 <= k < |ls| :: !Heads(ls[k], name)
    ensures forall i, j | LastOf(ls, name, i, j) :: 0 <= i < j <= |ls| && Get(ls, name) == Some(Between(ls, i, j))
    ensures Get(ls, name) != None ==> exists i, j :: LastOf(ls, name, i, j)
  {
    hide LastOf, Heads, Between, Get;
    GetNone(ls, name);
    forall i, j | LastOf(ls, name, i, j) ensures 0 <= i < j <= |ls| && Get(ls, name) == Some(Between(ls, i, j)) {
      SpanBounds(ls, name, i, j);
      GetLast(ls, name, i, j);
    }
    if Get(ls, name) != None {
      var k :| 0 <= k < |ls| && Heads(ls[k], name);
      var i, j := HasLast(ls, name, k);
    }
  }

  /** A section is what stands, stripped, between the last heading of its name and
      the next heading; there is none exactly when no heading has the name. */
  lemma SectionIs(text: string, name: string)
    ensures var ls := Lines(text);
            && (Section(text, name) == None <==> forall k | 0 <= k < |ls| :: !Heads(ls[k], name))
            && (forall i, j | LastOf(ls, name, i, j) :: Section(text, name) == Some(Between(ls, i, j)))
            && (Section(text, name) != None ==> exists i, j :: LastOf(ls, name, i, j))
  {
    hide Lines, LastOf, Heads, Between, Get;
    GetIs(Lines(text), name);
  }

  lemma SpanBounds(ls: seq<string>, name: string, i: int, j: int)
    requires LastOf(ls, name, i, j)
    ensures 0 <= i < j <= |ls|
  {
  }

  // ----- replacing -----

  /** The first line tagged with the section's own name or its label, and the line
      from which something else follows: the next that begins with "## ", or the
      end. The own name is tried first. */
  ghost predicate Found(ls: seq<string>, heading: string, i: int, j: int, tag: string) {
    && 0 <= i < j <= |ls|
    && (forall k | 0 <= k < i :: forall blanks :: !Tagged(ls[k], heading, blanks) && !Tagged(ls[k], Label(heading), blanks))
    && ((tag == heading && exists blanks :: Tagged(ls[i], heading, blanks))
        || (tag == Label(heading) && (forall blanks :: !Tagged(ls[i], heading, blanks)) && exists blanks :: Tagged(ls[i], tag, blanks)))
    && (forall k | i < k < j :: !("## " <= ls[k])) && (j < |ls| ==> "## " <= ls[j])
  }

  ghost predicate Nowhere(ls: seq<string>, heading: string) {
    forall l, blanks | l in ls :: !Tagged(l, heading, blanks) && !Tagged(l, Label(heading), blanks)
  }

  /** The text of the lines before one. */
  function Before(ls: seq<string>, i: nat): string
    requires i <= |ls|
  {
    if i == 0 then "" else Join(ls[..i]) + "\n"
  }

  function From(ls: seq<string>, j: nat): string
    requires j <= |ls|
  {
    if j == |ls| then "" else Join(ls[j..])
  }

  lemma TagIs(l: string, heading: string)
    ensures LabelAt(l, heading) == Some(heading) <==> exists blanks :: Tagged(l, heading, blanks)
    ensures LabelAt(l, heading) == None
            <==> forall blanks :: !Tagged(l, heading, blanks) && !Tagged(l, Label(heading), blanks)
    ensures LabelAt(l, heading).Some? ==> LabelAt(l, heading) == Some(heading) || LabelAt(l, heading) == Some(Label(heading))
  {
    hide Labelled, Tagged, Label;
    TaggedIs(l, heading);
    TaggedIs(l, Label(heading));
  }

  lemma FoundIs(ls: seq<string>, heading: string, i: int, j: int, tag: string)
    requires Found(ls, heading, i, j, tag)
    ensures FindLabel(ls, heading) == i && LabelAt(ls[i], heading) == Some(tag) && After(ls, heading) == ls[j..]
  {
    hide LabelAt, Tagged, Label;
    forall k | 0 <= k < |ls|
      ensures LabelAt(ls[k], heading) == None <==> forall blanks :: !Tagged(ls[k], heading, blanks) && !Tagged(ls[k], Label(heading), blanks)
      ensures LabelAt(ls[k], heading) == Some(heading) <==> exists blanks :: Tagged(ls[k], heading, blanks)
      ensures LabelAt(ls[k], heading).Some? ==> LabelAt(ls[k], heading) == Some(heading) || LabelAt(ls[k], heading) == Some(Label(heading))
    {
      TagIs(ls[k], heading);
    }
    FirstLabel(ls, heading, i);
    var rest := ls[i + 1..];
    assert forall k | i < k < |ls| :: ls[k] == rest[k - i - 1];
    UntilMarkIs(rest, j - i - 1);
    assert rest[j - i - 1..] == ls[j..];
  }

  lemma FirstLabel(ls: seq<string>, heading: string, i: nat)
    requires i < |ls| && LabelAt(ls[i], heading).Some? && forall k | 0 <= k < i :: LabelAt(ls[k], heading).None?
    ensures FindLabel(ls, heading) == i
  {
    hide LabelAt;
  }

  lemma UntilMarkIs(ls: seq<string>, n: nat)
    requires n <= |ls| && (forall k | 0 <= k < n :: !("## " <= ls[k])) && (n < |ls| ==> "## " <= ls[n])
    ensures UntilMark(ls) == n
  {
  }

  lemma NewText(tag: string, body: string, after: seq<string>)
    ensures Join(NewLines(tag, body, after == []) + after)
         == "## " + tag + "\n\n" + Strip(body) + "\n\n" + (if after == [] then "" else Join(after))
  {
    hide Join, Strip, Lines;
    var t := Strip(body);
    JoinLines(t);
    JoinCons("", Lines(t));
    JoinCons("## " + tag, [""] + Lines(t));
    assert ["## " + tag, ""] + Lines(t) == ["## " + tag] + ([""] + Lines(t));
    var front := "## " + tag + "\n" + ("" + "\n" + t);
    assert Join(["## " + tag, ""] + Lines(t)) == front;
    assert front + "\n" == "## " + tag + "\n\n" + t + "\n";
    if after == [] {
      TwoEmpty();
      JoinAppend(["## " + tag, ""] + Lines(t), ["", ""]);
      assert NewLines(tag, body, true) + after == ["## " + tag, ""] + Lines(t) + ["", ""];
      assert front + "\n" + "\n" == "## " + tag + "\n\n" + t + "\n\n" + "";
    } else {
      JoinCons("", after);
      JoinAppend(["## " + tag, ""] + Lines(t), [""] + after);
      assert NewLines(tag, body, false) + after == ["## " + tag, ""] + Lines(t) + ([""] + after);
      assert front + "\n" + ("" + "\n" + Join(after)) == "## " + tag + "\n\n" + t + "\n\n" + Join(after);
    }
  }

  lemma TwoEmpty()
    ensures Join(["", ""]) == "\n"
  {
    assert ["", ""][1..] == [""];
  }

  /** Replacing a section puts its heading, as it was written, and the stripped body
      in place of the lines up to what follows, and tidies the end; a document
      without the section gets it at its end, under the label. */
  lemma ReplaceIs(text: string, heading: string, body: string)
    ensures var ls := Lines(text);
            && (forall i, j, tag | Found(ls, heading, i, j, tag) ::
                  Replace(text, heading, body)
                  == StripRight(Before(ls, i) + "## " + tag + "\n\n" + Strip(body) + "\n\n" + From(ls, j)) + "\n")
            && (Nowhere(ls, heading) ==>
                  Replace(text, heading, body) == StripRight(text) + "\n\n" + "## " + Label(heading) + "\n\n" + Strip(body) + "\n\n")
            && (Nowhere(ls, heading) || exists i, j, tag :: Found(ls, heading, i, j, tag))
  {
    hide Lines, Replace, Found, Nowhere, Before, From, Label, Strip, StripRight;
    var ls := Lines(text);
    forall i, j, tag | Found(ls, heading, i, j, tag)
      ensures 0 <= i < j <= |ls|
      ensures Replace(text, heading, body)
           == StripRight(Before(ls, i) + "## " + tag + "\n\n" + Strip(body) + "\n\n" + From(ls, j)) + "\n"
    {
      FoundReplaced(text, heading, body, i, j, tag);
    }
    if Nowhere(ls, heading) { NowhereReplaced(text, heading, body); } else { var i, j, tag := SomewhereFound(ls, heading); }
  }

  lemma FoundReplaced(text: string, heading: string, body: string, i: int, j: int, tag: string)
    requires Found(Lines(text), heading, i, j, tag)
    ensures 0 <= i < j <= |Lines(text)|
    ensures Replace(text, heading, body)
         == StripRight(Before(Lines(text), i) + "## " + tag + "\n\n" + Strip(body) + "\n\n" + From(Lines(text), j)) + "\n"
  {
    hide Lines, LabelAt, Label, Strip, StripRight, Join, NewLines, After, FindLabel, Tagged;
    var ls := Lines(text);
    FoundIs(ls, heading, i, j, tag);
    var after := ls[j..];
    assert after == [] <==> j == |ls|;
    NewText(tag, body, after);
    var written := NewLines(tag, body, after == []) + after;
    if i == 0 {
      assert ls[..0] + written == written;
      assert Before(ls, i) + "## " == "## ";
    } else {
      JoinAppend(ls[..i], written);
    }
    var tail := "## " + tag + "\n\n" + Strip(body) + "\n\n" + From(ls, j);
    assert Before(ls, i) + "## " + tag + "\n\n" + Strip(body) + "\n\n" + From(ls, j) == Before(ls, i) + tail;
  }

  lemma NowhereReplaced(text: string, heading: string, body: string)
    requires Nowhere(Lines(text), heading)
    ensures Replace(text, heading, body) == StripRight(text) + "\n\n" + "## " + Label(heading) + "\n\n" + Strip(body) + "\n\n"
  {
    hide Lines, LabelAt, Label, Strip, StripRight, Join, NewLines, After, Tagged, Trim;
    var ls := Lines(text);
    forall k | 0 <= k < |ls| ensures LabelAt(ls[k], heading) == None {
      TagIs(ls[k], heading);
      assert ls[k] in ls;
    }
    NewText(Label(heading), body, []);
    var written := NewLines(Label(heading), body, true);
    assert written + [] == written;
    JoinTrim(ls);
    JoinLines(text);
    EmptyJoins();
    JoinAppend(Trim(ls), [""]);
    JoinAppend(Trim(ls) + [""], written);
    var tail := "## " + Label(heading) + "\n\n" + Strip(body) + "\n\n";
    assert StripRight(text) + "\n" + "" + "\n" + tail == StripRight(text) + "\n\n" + "## " + Label(heading) + "\n\n" + Strip(body) + "\n\n";
  }

  lemma EmptyJoins()
    ensures Join([""]) == ""
  {
  }

  lemma SomewhereFound(ls: seq<string>, heading: string) returns (i: int, j: int, tag: string)
    requires !Nowhere(ls, heading)
    ensures Found(ls, heading, i, j, tag)
  {
    hide LabelAt, Tagged, Label;
    i := FindLabel(ls, heading);
    forall k | 0 <= k < |ls|
      ensures LabelAt(ls[k], heading) == None <==> forall blanks :: !Tagged(ls[k], heading, blanks) && !Tagged(ls[k], Label(heading), blanks)
      ensures LabelAt(ls[k], heading) == Some(heading) <==> exists blanks :: Tagged(ls[k], heading, blanks)
      ensures LabelAt(ls[k], heading).Some? ==> LabelAt(ls[k], heading) == Some(heading) || LabelAt(ls[k], heading) == Some(Label(heading))
    {
      TagIs(ls[k], heading);
    }
    var rest := ls[i + 1..];
    j := i + 1 + UntilMark(rest);
    assert forall k | i < k < |ls| :: ls[k] == rest[k - i - 1];
    tag := LabelAt(ls[i], heading).value;
  }
}
