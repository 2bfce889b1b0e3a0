/** A phase transition that stopped anywhere is finished by the next call, and
    the next task is opened last. */
module TransitionCrash {
  import opened Utf8
  import opened Strings
  import opened GateRecords
  import opened GateChain
  import opened Transition

  // ----- sessions -----

  lemma FindIs(ss: seq<Session>, id: string, activeOnly: bool, i: nat)
    requires i < |ss| && ss[i].id == id && (activeOnly ==> ss[i].active)
    requires forall j | 0 <= j < i :: ss[j].id != id || (activeOnly && !ss[j].active)
    ensures Find(ss, id, activeOnly) == i
  {
    var k := Find(ss, id, activeOnly);
    assert k <= i;
  }

  /** Rebinding again changes nothing; it leaves the session on the next task
      and off the finished one, and every other session as it was. */
  lemma RebindFacts(ss: seq<Session>, id: string, last: string, next: string)
    requires CanRebind(ss, id, last, next) && last != next
    ensures var ss' := Rebind(ss, id, last, next);
            && CanRebind(ss', id, last, next) && Rebind(ss', id, last, next) == ss'
            && next in Bound(ss', id) && last !in Bound(ss', id)
            && forall other | other != id :: IsActive(ss', other) == IsActive(ss, other)
  {
    var i := Find(ss, id, true);
    var ss' := Rebind(ss, id, last, next);
    FindIs(ss', id, true, i);
    var tasks := Replacement(ss[i].tasks, last, next);
    DedupUnique(tasks);
    forall other | other != id ensures IsActive(ss', other) == IsActive(ss, other) {
      SameElsewhere(ss, ss', i, other);
    }
  }

  lemma SameElsewhere(ss: seq<Session>, ss': seq<Session>, i: nat, other: string)
    requires i < |ss| == |ss'| && ss[i].id != other && ss'[i].id != other
    requires forall j | 0 <= j < |ss| && j != i :: ss'[j] == ss[j]
    ensures IsActive(ss', other) == IsActive(ss, other)
  {
    if IsActive(ss, other) { var j :| 0 <= j < |ss| && ss[j].id == other && ss[j].active; assert ss'[j] == ss[j]; }
    if IsActive(ss', other) { var j :| 0 <= j < |ss| && ss'[j].id == other && ss'[j].active; assert ss'[j] == ss[j]; }
  }

  /** A session that attached holds the task it attached to. */
  lemma AttachFacts(st: State, requirement: string, id: string, task: string)
    requires Attach(st, requirement, id, task).Some?
    ensures var ss, ss' := SessionsOf(st, requirement), Attach(st, requirement, id, task).value;
            && Find(ss', id, true) < |ss'| && task in Bound(ss', id)
            && forall other | other != id :: IsActive(ss', other) == IsActive(ss, other)
  {
    var ss, ss' := SessionsOf(st, requirement), Attach(st, requirement, id, task).value;
    var i := Find(ss, id, false);
    FindIs(ss', id, true, i);
    if i < |ss| { assert task in ss[i].tasks + [task]; }
    forall other | other != id ensures IsActive(ss', other) == IsActive(ss, other) {
      if i < |ss| { SameElsewhere(ss, ss', i, other); } else { AppendedElsewhere(ss, ss'[i], other); }
    }
  }

  lemma AppendedElsewhere(ss: seq<Session>, s: Session, other: string)
    requires s.id != other
    ensures IsActive(ss + [s], other) == IsActive(ss, other)
  {
    if IsActive(ss, other) {
      var j :| 0 <= j < |ss| && ss[j].id == other && ss[j].active;
      assert (ss + [s])[j] == ss[j];
    }
  }

  // ----- the stages of a transition -----

  /** Cutting a concatenation of parts of at most one step each stops between
      two parts. */
  lemma {:induction false} CutParts(parts: seq<seq<Step>>, stages: seq<State>, k: nat) returns (n: nat)
    requires |stages| == |parts| + 1
    requires forall i | 0 <= i < |parts| :: |parts[i]| <= 1 && ApplyAll(stages[i], parts[i]) == stages[i + 1]
    ensures n <= |parts| && ApplyAll(stages[0], Prefix(Flatten(parts), k)) == stages[n]
    ensures k >= |Flatten(parts)| ==> n == |parts|
    ensures k < |Flatten(parts)| ==>
              n < |parts| && parts[n] == [Flatten(parts)[k]] && (n == |parts| - 1 ==> k == |Flatten(parts)| - 1)
    decreases |parts|
  {
    hide Apply;
    if parts == [] {
      n := 0;
    } else if parts[0] == [] {
      n := CutParts(parts[1..], stages[1..], k);
      n := n + 1;
      assert [] + Flatten(parts[1..]) == Flatten(parts[1..]);
    } else if k == 0 {
      n := 0;
    } else {
      n := CutParts(parts[1..], stages[1..], k - 1);
      n := n + 1;
      FirstStep(stages[0], parts[0], Flatten(parts[1..]), k);
    }
  }

  lemma FirstStep(st: State, first: seq<Step>, rest: seq<Step>, k: nat)
    requires |first| == 1 && k > 0
    ensures ApplyAll(st, Prefix(first + rest, k)) == ApplyAll(ApplyAll(st, first), Prefix(rest, k - 1))
  {
    hide Apply;
    var cut := Prefix(first + rest, k);
    assert cut == first + Prefix(rest, k - 1);
    assert cut[1..] == Prefix(rest, k - 1) && first[1..] == [];
  }

  function SetStatus(tasks: map<string, Task>, id: string, status: string): map<string, Task> {
    if id in tasks && tasks[id].status != status then Moved(tasks, id, status) else tasks
  }

  /** The state after the first n parts: session attached, current task
      switched, session rebound, old task done, next task open. */
  function Stage(st: State, c: Call, g: Ground, taken: seq<Session>, n: int): State
    requires CanRebind(taken, c.session, g.definition.task, g.activation.task)
  {
    var (last, next) := (g.definition.task, g.activation.task);
    var finished := if n >= 4 then SetStatus(st.tasks, last, "done") else st.tasks;
    State(if n >= 2 then Switched(st.store, c.requirement, next) else st.store,
          if n >= 3 then st.sessions[c.requirement := Rebind(taken, c.session, last, next)]
          else if n >= 1 then st.sessions[c.requirement := taken] else st.sessions,
          if n >= 5 then SetStatus(finished, next, "in_progress") else finished)
  }

  function TakenFor(st: State, c: Call, g: Ground, resuming: bool): (taken: seq<Session>)
    requires Finish(st, c, g, resuming).ok
    ensures CanRebind(taken, c.session, g.definition.task, g.activation.task)
  {
    hide CanRebind, Attach, CanMove, Rebind, CanFinish, CanOpen, IsActive;
    Taken(st, c, resuming).value
  }

  /** Where an admitted transition ends. */
  function End(st: State, c: Call, g: Ground, resuming: bool): State
    requires Finish(st, c, g, resuming).ok
  {
    Stage(st, c, g, TakenFor(st, c, g, resuming), 5)
  }

  function Parts(st: State, c: Call, g: Ground, resuming: bool): (parts: seq<seq<Step>>)
    requires Finish(st, c, g, resuming).ok
    ensures |parts| == 5 && forall i | 0 <= i < 5 :: |parts[i]| <= 1
  {
    hide CanRebind, Attach, Rebind, IsActive, Taken;
    var (last, next) := (g.definition.task, g.activation.task);
    var taken := TakenFor(st, c, g, resuming);
    [if taken == SessionsOf(st, c.requirement) then [] else [WriteSessions(c.requirement, taken)],
     if st.store.meta[c.requirement].task == Some(last) then [SwitchTask(c.requirement, next)] else [],
     [WriteSessions(c.requirement, Rebind(taken, c.session, last, next))],
     MoveIfNeeded(st, last, "done"), MoveIfNeeded(st, next, "in_progress")]
  }

  lemma PlanIsParts(st: State, c: Call, g: Ground, resuming: bool)
    requires Finish(st, c, g, resuming).ok
    ensures Finish(st, c, g, resuming).steps == Flatten(Parts(st, c, g, resuming))
  {
    hide Admits, CanRebind, Taken;
  }

  lemma PartReachesStage(st: State, c: Call, g: Ground, resuming: bool, i: nat)
    requires Finish(st, c, g, resuming).ok && g.definition.task != g.activation.task && i < 5
    ensures var taken := TakenFor(st, c, g, resuming);
            ApplyAll(Stage(st, c, g, taken, i), Parts(st, c, g, resuming)[i]) == Stage(st, c, g, taken, i + 1)
  {
    hide CanRebind, Finish, Stage, TakenFor, Parts, Apply;
    FinishFacts(st, c, g, resuming);
    var part := Parts(st, c, g, resuming)[i];
    if part != [] { OneStep(Stage(st, c, g, TakenFor(st, c, g, resuming), i), part); }
    if i == 1 {
      SwitchReaches(st, c, g, resuming);
    } else if i >= 3 {
      MoveReaches(st, c, g, resuming, i);
    } else {
      SessionsReach(st, c, g, resuming, i);
    }
  }

  lemma SwitchReaches(st: State, c: Call, g: Ground, resuming: bool)
    requires Finish(st, c, g, resuming).ok && g.definition.task != g.activation.task
    ensures var at := Stage(st, c, g, TakenFor(st, c, g, resuming), 1);
            var part := Parts(st, c, g, resuming)[1];
            (if part == [] then at else Apply(at, part[0])) == Stage(st, c, g, TakenFor(st, c, g, resuming), 2)
  {
    hide CanRebind, Taken, TakenFor, Rebind, Finish, Moved, SetStatus, CanFinish, CanOpen, Switched;
    FinishFacts(st, c, g, resuming);
  }

  lemma MoveReaches(st: State, c: Call, g: Ground, resuming: bool, i: nat)
    requires Finish(st, c, g, resuming).ok && g.definition.task != g.activation.task && 3 <= i < 5
    ensures var at := Stage(st, c, g, TakenFor(st, c, g, resuming), i);
            var part := Parts(st, c, g, resuming)[i];
            (if part == [] then at else Apply(at, part[0])) == Stage(st, c, g, TakenFor(st, c, g, resuming), i + 1)
  {
    hide CanRebind, Taken, TakenFor, Rebind, Finish, Moved, SetStatus, CanFinish, CanOpen, Switched;
    FinishFacts(st, c, g, resuming);
  }

  lemma SessionsReach(st: State, c: Call, g: Ground, resuming: bool, i: nat)
    requires Finish(st, c, g, resuming).ok && g.definition.task != g.activation.task && (i == 0 || i == 2)
    ensures var at := Stage(st, c, g, TakenFor(st, c, g, resuming), i);
            var part := Parts(st, c, g, resuming)[i];
            (if part == [] then at else Apply(at, part[0])) == Stage(st, c, g, TakenFor(st, c, g, resuming), i + 1)
  {
    hide CanRebind, Taken, TakenFor, Rebind, Finish, Moved, SetStatus, CanFinish, CanOpen, Switched;
    FinishFacts(st, c, g, resuming);
  }

  lemma OneStep(st: State, steps: seq<Step>)
    requires |steps| == 1
    ensures ApplyAll(st, steps) == Apply(st, steps[0])
  {
    hide Apply;
    assert steps[1..] == [];
  }

  /** What an admitted transition knows of its state. */
  lemma FinishFacts(st: State, c: Call, g: Ground, resuming: bool)
    requires Finish(st, c, g, resuming).ok && g.definition.task != g.activation.task
    ensures var (last, next) := (g.definition.task, g.activation.task);
            var taken := TakenFor(st, c, g, resuming);
            && Admits(st, c, g) && Taken(st, c, resuming).Some?
            && (taken == SessionsOf(st, c.requirement) ==> st.sessions == st.sessions[c.requirement := taken])
            && (st.store.meta[c.requirement].task != Some(last) ==> Switched(st.store, c.requirement, next) == st.store)
            && SetStatus(st.tasks, last, "done") == (if st.tasks[last].status == "done" then st.tasks else Moved(st.tasks, last, "done"))
            && SetStatus(SetStatus(st.tasks, last, "done"), next, "in_progress")
            == (if st.tasks[next].status == "in_progress" then SetStatus(st.tasks, last, "done")
                else Moved(SetStatus(st.tasks, last, "done"), next, "in_progress"))
  {
    hide Rebind, Attach, Bound, Find, IsActive;
    var t := SetStatus(st.tasks, g.definition.task, "done");
    assert t[g.activation.task] == st.tasks[g.activation.task];
  }

  lemma StageZero(st: State, c: Call, g: Ground, taken: seq<Session>)
    requires CanRebind(taken, c.session, g.definition.task, g.activation.task)
    ensures Stage(st, c, g, taken, 0) == st
  {
  }

  lemma CutFinish(st: State, c: Call, g: Ground, resuming: bool, k: nat) returns (n: nat)
    requires Finish(st, c, g, resuming).ok && g.definition.task != g.activation.task
    ensures n <= 5 && (k >= |Finish(st, c, g, resuming).steps| ==> n == 5)
    ensures ApplyAll(st, Prefix(Finish(st, c, g, resuming).steps, k))
         == Stage(st, c, g, TakenFor(st, c, g, resuming), n)
    ensures k < |Finish(st, c, g, resuming).steps| ==>
              n < 5 && Parts(st, c, g, resuming)[n] == [Finish(st, c, g, resuming).steps[k]]
              && (n == 4 ==> k == |Finish(st, c, g, resuming).steps| - 1)
  {
    hide Finish, Stage, Parts, Apply, Taken, CanRebind;
    var taken := TakenFor(st, c, g, resuming);
    PlanIsParts(st, c, g, resuming);
    StageZero(st, c, g, taken);
    var stages := seq(6, i requires CanRebind(taken, c.session, g.definition.task, g.activation.task) => Stage(st, c, g, taken, i));
    forall i | 0 <= i < 5 ensures ApplyAll(stages[i], Parts(st, c, g, resuming)[i]) == stages[i + 1] {
      PartReachesStage(st, c, g, resuming, i);
    }
    n := CutParts(Parts(st, c, g, resuming), stages, k);
  }

  // ----- the next call finishes -----

  lemma TakenSessions(st: State, c: Call, g: Ground, resuming: bool)
    requires Finish(st, c, g, resuming).ok && g.definition.task != g.activation.task
    ensures var ss, taken := SessionsOf(st, c.requirement), TakenFor(st, c, g, resuming);
            && Bound(taken, c.session) != []
            && (forall other | other != c.session :: IsActive(taken, other) == IsActive(ss, other))
            && (Bound(ss, c.session) != [] ==> taken == ss)
            && (!resuming ==> Bound(ss, c.session) != [])
  {
    hide Rebind, IsActive, CanMove, CanFinish, CanOpen;
    if Bound(SessionsOf(st, c.requirement), c.session) == [] && resuming {
      AttachFacts(st, c.requirement, c.session, st.store.meta[c.requirement].task.value);
    }
  }

  lemma SessionsAtStage(st: State, c: Call, g: Ground, resuming: bool, n: int)
    requires Finish(st, c, g, resuming).ok && g.definition.task != g.activation.task && 0 <= n <= 5
    ensures var (last, next) := (g.definition.task, g.activation.task);
            var taken := TakenFor(st, c, g, resuming);
            var st' := Stage(st, c, g, taken, n);
            && SessionsOf(st', c.requirement) == (if n >= 3 then Rebind(taken, c.session, last, next)
                                                  else if n >= 1 then taken else SessionsOf(st, c.requirement))
            && (forall other | other != c.session ::
                  IsActive(SessionsOf(st', c.requirement), other) == IsActive(SessionsOf(st, c.requirement), other))
  {
    hide IsActive, Rebind, CanRebind, Finish;
    var taken := TakenFor(st, c, g, resuming);
    TakenSessions(st, c, g, resuming);
    RebindFacts(taken, c.session, g.definition.task, g.activation.task);
  }

  /** From any stage the caller goes on with a list that rebinds to the same. */
  lemma TakenAtStage(st: State, c: Call, g: Ground, resuming: bool, n: int)
    requires Finish(st, c, g, resuming).ok && g.definition.task != g.activation.task && 0 <= n <= 5
    ensures var (last, next) := (g.definition.task, g.activation.task);
            var taken := TakenFor(st, c, g, resuming);
            var st' := Stage(st, c, g, taken, n);
            && c.requirement in st'.store.meta && st'.store.meta[c.requirement].task.Some?
            && Taken(st', c, true).Some? && CanRebind(Taken(st', c, true).value, c.session, last, next)
            && Rebind(Taken(st', c, true).value, c.session, last, next) == Rebind(taken, c.session, last, next)
  {
    hide IsActive, Rebind, CanRebind, Finish, Attach, Bound;
    var taken := TakenFor(st, c, g, resuming);
    var st' := Stage(st, c, g, taken, n);
    FinishFacts(st, c, g, resuming);
    TakenSessions(st, c, g, resuming);
    SessionsAtStage(st, c, g, resuming, n);
    RebindFacts(taken, c.session, g.definition.task, g.activation.task);
    if n == 0 { StageZero(st, c, g, taken); }
  }

  lemma TasksAtStage(st: State, c: Call, g: Ground, resuming: bool, n: int)
    requires Finish(st, c, g, resuming).ok && g.definition.task != g.activation.task && 0 <= n <= 5
    ensures var (last, next) := (g.definition.task, g.activation.task);
            var taken := TakenFor(st, c, g, resuming);
            var st' := Stage(st, c, g, taken, n);
            && CanFinish(st', last) && CanOpen(st', next) && CanMove(st', last, "done") && CanMove(st', next, "in_progress")
            && SetStatus(SetStatus(st'.tasks, last, "done"), next, "in_progress")
            == SetStatus(SetStatus(st.tasks, last, "done"), next, "in_progress")
  {
    hide CanRebind, Rebind, Taken, Attach, Bound, SessionsOf, Switched, IsActive;
  }

  lemma AdmitsAtStage(st: State, c: Call, g: Ground, resuming: bool, n: int)
    requires Finish(st, c, g, resuming).ok && g.definition.task != g.activation.task && 0 <= n <= 5
    ensures var taken := TakenFor(st, c, g, resuming);
            var st' := Stage(st, c, g, taken, n);
            && Admits(st', c, g)
            && Switched(st'.store, c.requirement, g.activation.task) == Switched(st.store, c.requirement, g.activation.task)
  {
    hide CanRebind, Rebind, Taken, Finish, SessionsOf, IsActive, CanFinish, CanOpen, CanMove, SetStatus;
    FinishFacts(st, c, g, resuming);
    SessionsAtStage(st, c, g, resuming, n);
    TasksAtStage(st, c, g, resuming, n);
  }

  lemma Admitted(st: State, c: Call, g: Ground)
    requires Admits(st, c, g) && Taken(st, c, true).Some?
    requires CanRebind(Taken(st, c, true).value, c.session, g.definition.task, g.activation.task)
    requires CanMove(st, g.definition.task, "done") && CanMove(st, g.activation.task, "in_progress")
    ensures Finish(st, c, g, true).ok && TakenFor(st, c, g, true) == Taken(st, c, true).value
  {
    hide CanRebind, Rebind, CanMove, Taken;
  }

  lemma EndIs(st: State, c: Call, g: Ground, resuming: bool)
    requires Finish(st, c, g, resuming).ok
    ensures var (last, next) := (g.definition.task, g.activation.task);
            End(st, c, g, resuming)
            == State(Switched(st.store, c.requirement, next),
                     st.sessions[c.requirement := Rebind(TakenFor(st, c, g, resuming), c.session, last, next)],
                     SetStatus(SetStatus(st.tasks, last, "done"), next, "in_progress"))
  {
    hide CanRebind, Rebind, SetStatus, Taken, Switched, Finish;
  }

  /** From any stage, the caller's next call is admitted and ends in the same
      state. */
  lemma StageGoesOn(st: State, c: Call, g: Ground, resuming: bool, n: int)
    requires Finish(st, c, g, resuming).ok && g.definition.task != g.activation.task && 0 <= n <= 5
    ensures var st' := Stage(st, c, g, TakenFor(st, c, g, resuming), n);
            Finish(st', c, g, true).ok && End(st', c, g, true) == End(st, c, g, resuming)
  {
    hide Finish, Rebind, CanRebind, Taken, Admits, SetStatus, Switched, CanFinish, CanOpen, CanMove, End;
    var taken := TakenFor(st, c, g, resuming);
    var st' := Stage(st, c, g, taken, n);
    AdmitsAtStage(st, c, g, resuming, n);
    TasksAtStage(st, c, g, resuming, n);
    TakenAtStage(st, c, g, resuming, n);
    Admitted(st', c, g);
    EndIs(st, c, g, resuming);
    EndIs(st', c, g, true);
    assert st'.sessions[c.requirement := Rebind(taken, c.session, g.definition.task, g.activation.task)]
        == st.sessions[c.requirement := Rebind(taken, c.session, g.definition.task, g.activation.task)];
  }
}
