/** Moving a requirement to its next phase: the activation is a write-ahead
    journal for the switch of the current task, of the session's binding and of
    the two tasks' states. */
module Transition {
  import opened Utf8
  import opened Strings
  import opened GateRecords
  import opened GateChain

  datatype Session = Session(id: string, active: bool, tasks: seq<string>)

  datatype Task = Task(status: string, version: Option<int>)

  datatype State = State(store: Store, sessions: map<string, seq<Session>>, tasks: map<string, Task>)

  /** Atomic effects, in the order advance_next has them. */
  datatype Step =
    | WriteActivation(path: Path, activation: Activation)
    | WriteSessions(requirement: string, sessions: seq<Session>)
    | SwitchTask(requirement: string, task: string)
    | MoveTask(id: string, status: string)

  /** A task the provider moved carries the next version. */
  function Moved(tasks: map<string, Task>, id: string, status: string): map<string, Task> {
    if id in tasks && tasks[id].version.Some?
    then tasks[id := Task(status, Some(tasks[id].version.value + 1))] else tasks
  }

  function Switched(s: Store, requirement: string, task: string): Store {
    if requirement in s.meta then s.(meta := s.meta[requirement := s.meta[requirement].(task := Some(task))]) else s
  }

  function Apply(st: State, step: Step): State {
    match step
    case WriteActivation(p, a) => st.(store := st.store.(activations := st.store.activations[p := a]))
    case WriteSessions(r, ss) => st.(sessions := st.sessions[r := ss])
    case SwitchTask(r, t) => st.(store := Switched(st.store, r, t))
    case MoveTask(id, status) => st.(tasks := Moved(st.tasks, id, status))
  }

  function ApplyAll(st: State, steps: seq<Step>): State
    decreases |steps|
  {
    if steps == [] then st else ApplyAll(Apply(st, steps[0]), steps[1..])
  }

  // ----- sessions -----

  /** dict.fromkeys: the first occurrence of each. */
  function Dedup(s: seq<string>): (d: seq<string>)
    ensures Unique(d) && forall x :: x in d <==> x in s
  {
    if s == [] then []
    else
      var d := Dedup(s[..|s| - 1]);
      if s[|s| - 1] in d then d else d + [s[|s| - 1]]
  }

  function Without(s: seq<string>, x: string): (t: seq<string>)
    ensures forall y :: y in t <==> y in s && y != x
    ensures Unique(s) ==> Unique(t)
    ensures x !in s ==> t == s
  {
    if s == [] then []
    else
      var rest := Without(s[..|s| - 1], x);
      assert Unique(s) ==> s[|s| - 1] !in s[..|s| - 1];
      if s[|s| - 1] == x then rest else rest + [s[|s| - 1]]
  }

  lemma {:induction false} DedupUnique(s: seq<string>)
    requires Unique(s)
    ensures Dedup(s) == s
  {
    if s != [] {
      DedupUnique(s[..|s| - 1]);
      assert s[..|s| - 1] + [s[|s| - 1]] == s;
    }
  }

  /** The first entry of a session, or the length of the list. */
  function Find(ss: seq<Session>, id: string, activeOnly: bool): (i: nat)
    ensures i <= |ss|
    ensures i < |ss| ==> ss[i].id == id && (activeOnly ==> ss[i].active)
    ensures forall j | 0 <= j < i :: ss[j].id != id || (activeOnly && !ss[j].active)
    decreases |ss|
  {
    if ss == [] then 0
    else if ss[0].id == id && (activeOnly ==> ss[0].active) then 0
    else
      var i := Find(ss[1..], id, activeOnly);
      assert forall j | 0 < j < i + 1 :: ss[j] == ss[1..][j - 1];
      i + 1
  }

  function SessionsOf(st: State, requirement: string): seq<Session> {
    if requirement in st.sessions then st.sessions[requirement] else []
  }

  /** session_task_ids */
  function Bound(ss: seq<Session>, id: string): seq<string> {
    var i := Find(ss, id, true);
    if i < |ss| then ss[i].tasks else []
  }

  predicate IsActive(ss: seq<Session>, id: string) {
    exists i | 0 <= i < |ss| :: ss[i].id == id && ss[i].active
  }

  predicate ActiveElsewhere(st: State, requirement: string, id: string) {
    exists r | r in st.sessions :: r != requirement && IsActive(st.sessions[r], id)
  }

  /** attach_session without branch and worktree: refused beside any other
      session at work. */
  function Attach(st: State, requirement: string, id: string, task: string): Option<seq<Session>> {
    var ss := SessionsOf(st, requirement);
    if ActiveElsewhere(st, requirement, id) || exists i | 0 <= i < |ss| :: ss[i].id != id && ss[i].active && ss[i].tasks != []
    then None
    else
      var i := Find(ss, id, false);
      if i < |ss| then Some(ss[i := Session(id, true, Dedup(ss[i].tasks + [task]))])
      else Some(ss + [Session(id, true, [task])])
  }

  predicate CanRebind(ss: seq<Session>, id: string, previous: string, next: string) {
    Find(ss, id, true) < |ss| && (previous in Bound(ss, id) || next in Bound(ss, id))
  }

  function Replacement(tasks: seq<string>, previous: string, next: string): seq<string> {
    var rest := Without(Dedup(tasks), previous);
    if next in rest then rest else rest + [next]
  }

  /** rebind_session_task */
  function Rebind(ss: seq<Session>, id: string, previous: string, next: string): seq<Session>
    requires CanRebind(ss, id, previous, next)
  {
    var i := Find(ss, id, true);
    ss[i := Session(id, true, Replacement(ss[i].tasks, previous, next))]
  }

  // ----- advance_next -----

  datatype Call = Call(requirement: string, completed: int, session: string, agent: string)

  function PathOf(c: Call): Path {
    (c.requirement, c.completed + 1)
  }

  function NewActivation(w: World, c: Call, g: Gate, next: string): Activation {
    Activation(c.requirement, c.completed + 1, next, c.completed, g.commit, OfGate(g), c.session, w.now, c.agent, SCHEMA)
  }

  predicate CanFinish(st: State, id: string) {
    id in st.tasks && st.tasks[id].status in ["in_progress", "in_review", "done"]
  }

  predicate CanOpen(st: State, id: string) {
    id in st.tasks && st.tasks[id].status in ["backlog", "todo", "blocked", "in_progress"]
  }

  /** The finished phase's definition, and the activation the transition works
      from. */
  datatype Ground = Ground(definition: Definition, activation: Activation)

  /** Resuming: the checks on the activation on file. */
  predicate Resumable(w: World, s: Store, c: Call) {
    && HasActivation(s, PathOf(c))
    && var a := s.activations[PathOf(c)];
    && ActivationValid(w, s, a) && a.predecessorPhase == c.completed
    && (c.requirement, c.completed) in s.gates
    && var g := s.gates[(c.requirement, c.completed)];
    && Loadable(w.commits, g.commit, (c.requirement, c.completed))
    && a.predecessorFingerprint == OfGate(g)
    && (var ds := Definitions(w.commits, w.head, c.requirement);
        && ds.Some? && c.completed < |ds.value|
        && ds.value[c.completed].task == DefinitionAt(w.commits, g.commit, c.requirement, c.completed).task
        && ds.value[c.completed].next == Some(a.task))
  }

  function ResumeGround(w: World, s: Store, c: Call): Ground
    requires PathOf(c) in s.activations && (c.requirement, c.completed) in s.gates
    requires Loadable(w.commits, s.gates[(c.requirement, c.completed)].commit, (c.requirement, c.completed))
  {
    var g := s.gates[(c.requirement, c.completed)];
    Ground(DefinitionAt(w.commits, g.commit, c.requirement, c.completed), s.activations[PathOf(c)])
  }

  /** Starting: the finished phase has a valid current gate and a next task, and
      the session holds one of the two tasks. */
  predicate Startable(w: World, st: State, c: Call) {
    hide GateValid, ActivationValid, Definitions, CanFinish, CanOpen, Bound, SessionsOf;
    var ds := Definitions(w.commits, w.head, c.requirement);
    && ds.Some? && 0 <= c.completed < |ds.value| && ds.value[c.completed].next.Some?
    && (c.requirement, c.completed) in st.store.gates
    && GateValid(w, st.store, st.store.gates[(c.requirement, c.completed)])
    && (var d := ds.value[c.completed];
        && CanFinish(st, d.task) && CanOpen(st, d.next.value)
        && var bound := Bound(SessionsOf(st, c.requirement), c.session);
           (d.task in bound || d.next.value in bound))
    && ActivationValid(w, st.store, StartGround(w, st.store, c).activation)
  }

  function StartGround(w: World, s: Store, c: Call): Ground
    requires Definitions(w.commits, w.head, c.requirement).Some?
    requires 0 <= c.completed < |Definitions(w.commits, w.head, c.requirement).value|
    requires Definitions(w.commits, w.head, c.requirement).value[c.completed].next.Some?
    requires (c.requirement, c.completed) in s.gates
  {
    var d := Definitions(w.commits, w.head, c.requirement).value[c.completed];
    Ground(d, NewActivation(w, c, s.gates[(c.requirement, c.completed)], d.next.value))
  }

  /** The second half's checks, common to both branches. */
  predicate Admits(st: State, c: Call, g: Ground) {
    && g.definition.next == Some(g.activation.task)
    && CanFinish(st, g.definition.task) && CanOpen(st, g.activation.task)
    && c.requirement in st.store.meta
    && (st.store.meta[c.requirement].task == Some(g.definition.task) || st.store.meta[c.requirement].task == Some(g.activation.task))
    && (g.activation.session == c.session || !IsActive(SessionsOf(st, c.requirement), g.activation.session))
  }

  /** The session list the transition goes on with: a caller with no task of its
      own takes over the current one when the journal is already there. */
  function Taken(st: State, c: Call, resuming: bool): Option<seq<Session>>
    requires c.requirement in st.store.meta && st.store.meta[c.requirement].task.Some?
  {
    var ss := SessionsOf(st, c.requirement);
    if Bound(ss, c.session) == [] && resuming
    then Attach(st, c.requirement, c.session, st.store.meta[c.requirement].task.value) else Some(ss)
  }

  datatype Plan = Plan(steps: seq<Step>, ok: bool)

  const REFUSED: Plan := Plan([], false)

  function Flatten(parts: seq<seq<Step>>): seq<Step>
    decreases |parts|
  {
    if parts == [] then [] else parts[0] + Flatten(parts[1..])
  }

  /** Task states move by compare-and-set on the provider's version. */
  predicate CanMove(st: State, id: string, status: string) {
    id in st.tasks && (st.tasks[id].status == status || st.tasks[id].version.Some?)
  }

  function MoveIfNeeded(st: State, id: string, status: string): (part: seq<Step>)
    requires id in st.tasks
    ensures |part| <= 1
  {
    if st.tasks[id].status == status then [] else [MoveTask(id, status)]
  }

  /** From the activation on: attach, switch the current task, rebind the
      session, finish the old task, open the next one. */
  function Finish(st: State, c: Call, g: Ground, resuming: bool): Plan {
    if !Admits(st, c, g) then REFUSED
    else
      var (last, next) := (g.definition.task, g.activation.task);
      var ss := SessionsOf(st, c.requirement);
      var taken := Taken(st, c, resuming);
      if taken.None? then REFUSED
      else
        var attach := if taken.value == ss then [] else [WriteSessions(c.requirement, taken.value)];
        if !CanRebind(taken.value, c.session, last, next) then Plan(attach, false)
        else
          var switch := if st.store.meta[c.requirement].task == Some(last) then [SwitchTask(c.requirement, next)] else [];
          var rebind := [WriteSessions(c.requirement, Rebind(taken.value, c.session, last, next))];
          var finish := MoveIfNeeded(st, last, "done");
          var open := MoveIfNeeded(st, next, "in_progress");
          if !CanMove(st, last, "done") then Plan(Flatten([attach, switch, rebind]), false)
          else if !CanMove(st, next, "in_progress") then Plan(Flatten([attach, switch, rebind, finish]), false)
          else Plan(Flatten([attach, switch, rebind, finish, open]), true)
  }

  /** advance_next */
  function AdvancePlan(w: World, st: State, c: Call): Plan {
    if Blank(c.session) || Blank(c.agent) || c.completed < 0 then REFUSED
    else if PathOf(c) in st.store.activations then
      if Resumable(w, st.store, c) then Finish(st, c, ResumeGround(w, st.store, c), true) else REFUSED
    else if Startable(w, st, c) then
      var g := StartGround(w, st.store, c);
      var rest := Finish(st, c, g, false);
      Plan([WriteActivation(PathOf(c), g.activation)] + rest.steps, rest.ok)
    else REFUSED
  }

  function Prefix(steps: seq<Step>, n: nat): seq<Step> {
    if n >= |steps| then steps else steps[..n]
  }
}
