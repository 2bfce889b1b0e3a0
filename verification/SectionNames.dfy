/** The Chinese and English names of document sections. The table is cut by the
    length of the name looked up. */
module SectionNames {

  function Canonical0(name: string): string {
    match name
    case "目标" => "Goal"
    case "目的" => "Purpose"
    case "背景" => "Background"
    case "范围" => "Scope"
    case "原因" => "Why"
    case "约束" => "Constraints"
    case "阶段" => "Phase"
    case _ => name
  }

  function Canonical1(name: string): string {
    match name
    case "非目标" => "Non-goals"
    case "已完成" => "Completed"
    case "进行中" => "In Progress"
    case "待处理" => "Pending"
    case "已阻塞" => "Blocked"
    case _ => name
  }

  function Canonical2(name: string): string {
    match name
    case "验收标准" => "Acceptance Criteria"
    case "期望结果" => "Desired Outcome"
    case "设计方向" => "Design Direction"
    case "意图审查" => "Intent Review"
    case "审查反馈" => "Review Feedback"
    case "单元测试" => "Unit Tests"
    case "类型检查" => "Type Check"
    case "集成测试" => "Integration Tests"
    case "最新检查" => "Latest Check"
    case "上次会话" => "Last Session"
    case "当前状态" => "Current State"
    case "已知问题" => "Known Problems"
    case _ => name
  }

  function Canonical3(name: string): string {
    match name
    case "不得演变成" => "Must Not Become"
    case "取舍优先级" => "Trade-off Priorities"
    case "执行优先级" => "Execution Priority"
    case "下一步行动" => "Next Action"
    case "已修改文件" => "Files Changed"
    case "重要上下文" => "Important Context"
    case "建议的下一步行动" => "Next Recommended Action"
    case _ => name
  }

  /** SECTION_ALIASES.get(name, name) */
  function Canonical(name: string): string {
    if |name| <= 2 then Canonical0(name)
    else if |name| <= 3 then Canonical1(name)
    else if |name| <= 4 then Canonical2(name)
    else if |name| <= 8 then Canonical3(name)
    else name
  }

  function Label0(name: string): string {
    match name
    case "Goal" => "目标"
    case "Scope" => "范围"
    case "Why" => "原因"
    case "Phase" => "阶段"
    case _ => name
  }

  function Label1(name: string): string {
    match name
    case "Purpose" => "目的"
    case "Non-goals" => "非目标"
    case "Completed" => "已完成"
    case "Pending" => "待处理"
    case "Blocked" => "已阻塞"
    case _ => name
  }

  function Label2(name: string): string {
    match name
    case "Background" => "背景"
    case "Unit Tests" => "单元测试"
    case "Type Check" => "类型检查"
    case _ => name
  }

  function Label3(name: string): string {
    match name
    case "Constraints" => "约束"
    case "In Progress" => "进行中"
    case "Next Action" => "下一步行动"
    case "Latest Check" => "最新检查"
    case "Last Session" => "上次会话"
    case _ => name
  }

  function Label4(name: string): string {
    match name
    case "Intent Review" => "意图审查"
    case "Files Changed" => "已修改文件"
    case "Current State" => "当前状态"
    case "Known Problems" => "已知问题"
    case _ => name
  }

  function Label5(name: string): string {
    match name
    case "Desired Outcome" => "期望结果"
    case "Must Not Become" => "不得演变成"
    case "Design Direction" => "设计方向"
    case "Review Feedback" => "审查反馈"
    case _ => name
  }

  function Label6(name: string): string {
    match name
    case "Acceptance Criteria" => "验收标准"
    case "Trade-off Priorities" => "取舍优先级"
    case "Execution Priority" => "执行优先级"
    case "Integration Tests" => "集成测试"
    case "Important Context" => "重要上下文"
    case "Next Recommended Action" => "建议的下一步行动"
    case _ => name
  }

  /** SECTION_LABELS.get(name, name) */
  function Label(name: string): string {
    if |name| <= 6 then Label0(name)
    else if |name| <= 9 then Label1(name)
    else if |name| <= 10 then Label2(name)
    else if |name| <= 12 then Label3(name)
    else if |name| <= 14 then Label4(name)
    else if |name| <= 16 then Label5(name)
    else if |name| <= 23 then Label6(name)
    else name
  }

  lemma SameSection0(name: string)
    requires |name| <= 6
    ensures Canonical(Label(name)) == Canonical(name)
    ensures Label(name) != name ==> Canonical(name) == name
  {
    hide Label1, Label2, Label3, Label4, Label5, Label6;
  }

  lemma SameSection1(name: string)
    requires 7 <= |name| <= 9
    ensures Canonical(Label(name)) == Canonical(name)
    ensures Label(name) != name ==> Canonical(name) == name
  {
    hide Label0, Label2, Label3, Label4, Label5, Label6;
  }

  lemma SameSection2(name: string)
    requires 10 <= |name| <= 10
    ensures Canonical(Label(name)) == Canonical(name)
    ensures Label(name) != name ==> Canonical(name) == name
  {
    hide Label0, Label1, Label3, Label4, Label5, Label6;
  }

  lemma SameSection3(name: string)
    requires 11 <= |name| <= 12
    ensures Canonical(Label(name)) == Canonical(name)
    ensures Label(name) != name ==> Canonical(name) == name
  {
    hide Label0, Label1, Label2, Label4, Label5, Label6;
  }

  lemma SameSection4(name: string)
    requires 13 <= |name| <= 14
    ensures Canonical(Label(name)) == Canonical(name)
    ensures Label(name) != name ==> Canonical(name) == name
  {
    hide Label0, Label1, Label2, Label3, Label5, Label6;
  }

  lemma SameSection5(name: string)
    requires 15 <= |name| <= 16
    ensures Canonical(Label(name)) == Canonical(name)
    ensures Label(name) != name ==> Canonical(name) == name
  {
    hide Label0, Label1, Label2, Label3, Label4, Label6;
  }

  lemma SameSection6(name: string)
    requires |name| >= 17
    ensures Canonical(Label(name)) == Canonical(name)
    ensures Label(name) != name ==> Canonical(name) == name
  {
    hide Label0, Label1, Label2, Label3, Label4, Label5;
  }

  /** Both names of a section are the same section; the name that has a label is
      the canonical one. */
  lemma SameSection(name: string)
    ensures Canonical(Label(name)) == Canonical(name)
    ensures Label(name) != name ==> Canonical(name) == name
  {
    hide Canonical, Label;
    if |name| <= 6 {
      SameSection0(name);
    } else if |name| <= 9 {
      SameSection1(name);
    } else if |name| <= 10 {
      SameSection2(name);
    } else if |name| <= 12 {
      SameSection3(name);
    } else if |name| <= 14 {
      SameSection4(name);
    } else if |name| <= 16 {
      SameSection5(name);
    } else {
      SameSection6(name);
    }
  }

  lemma LabelOfAlias0(name: string)
    requires |name| <= 2
    ensures Canonical(name) == name || Label(Canonical(name)) == name
  {
    hide Canonical1, Canonical2, Canonical3;
  }

  lemma LabelOfAlias1(name: string)
    requires 3 <= |name| <= 3
    ensures Canonical(name) == name || Label(Canonical(name)) == name
  {
    hide Canonical0, Canonical2, Canonical3;
  }

  lemma LabelOfAlias2(name: string)
    requires 4 <= |name| <= 4 && |Canonical(name)| <= 12
    ensures Canonical(name) == name || Label(Canonical(name)) == name
  {
    hide Canonical0, Canonical1, Canonical3, Label4, Label5, Label6;
  }

  lemma LabelOfAlias3(name: string)
    requires 4 <= |name| <= 4 && |Canonical(name)| > 12
    ensures Canonical(name) == name || Label(Canonical(name)) == name
  {
    hide Canonical0, Canonical1, Canonical3, Label0, Label1, Label2, Label3;
  }

  lemma LabelOfAlias4(name: string)
    requires |name| >= 5 && |Canonical(name)| <= 16
    ensures Canonical(name) == name || Label(Canonical(name)) == name
  {
    hide Canonical0, Canonical1, Canonical2, Label6;
  }

  lemma LabelOfAlias5(name: string)
    requires |name| >= 5 && |Canonical(name)| > 16
    ensures Canonical(name) == name || Label(Canonical(name)) == name
  {
    hide Canonical0, Canonical1, Canonical2, Label0, Label1, Label2, Label3, Label4, Label5;
  }

  /** A Chinese name is the label of its own section. */
  lemma LabelOfAlias(name: string)
    ensures Canonical(name) == name || Label(Canonical(name)) == name
  {
    hide Canonical, Label;
    if |name| <= 2 {
      LabelOfAlias0(name);
    } else if |name| <= 3 {
      LabelOfAlias1(name);
    } else if |name| <= 4 {
      if |Canonical(name)| <= 12 { LabelOfAlias2(name); } else { LabelOfAlias3(name); }
    } else {
      if |Canonical(name)| <= 16 { LabelOfAlias4(name); } else { LabelOfAlias5(name); }
    }
  }

  /** The alias map is injective. */
  lemma AliasesInjective(a: string, b: string)
    requires Canonical(a) != a && Canonical(b) != b && Canonical(a) == Canonical(b)
    ensures a == b
  {
    hide Canonical, Label;
    LabelOfAlias(a);
    LabelOfAlias(b);
  }

  /** A label is its own label. */
  lemma LabelTwice(name: string)
    ensures Label(Label(name)) == Label(name)
  {
    hide Canonical, Label;
    var tag := Label(name);
    SameSection(name);
    SameSection(tag);
    if tag != name && Label(tag) != tag { AliasesInjective(Label(tag), tag); }
  }
}
