/** advance_next as the steps it takes; every step goes into the trace, so a
    crash anywhere leaves a prefix of it. */
module TransitionServices {
  import opened Utf8
  import opened Strings
  import opened GateRecords
  import opened GateChain
  import opened Transition

  lemma {:induction false} StepsAppend(st: State, first: seq<Step>, rest: seq<Step>)
    ensures ApplyAll(st, first + rest) == ApplyAll(ApplyAll(st, first), rest)
    decreases |first|
  {
    hide Apply;
    if first == [] {
      assert first + rest == rest;
    } else {
      StepsAppend(Apply(st, first[0]), first[1..], rest);
      assert (first + rest)[1..] == first[1..] + rest;
    }
  }

  lemma {:induction false} FlattenAppend(parts: seq<seq<Step>>, part: seq<Step>)
    ensures Flatten(parts + [part]) == Flatten(parts) + part
    decreases |parts|
  {
    if parts == [] {
      assert (parts + [part])[1..] == [];
      assert part + [] == part && [] + part == part;
    } else {
      FlattenAppend(parts[1..], part);
      assert (parts + [part])[1..] == parts[1..] + [part];
      assert parts[0] + (Flatten(parts[1..]) + part) == parts[0] + Flatten(parts[1..]) + part;
    }
  }

  lemma AdmitsFacts(st: State, c: Call, g: Ground)
    requires Admits(st, c, g)
    ensures c.requirement in st.store.meta && st.store.meta[c.requirement].task.Some?
    ensures g.definition.task in st.tasks && g.activation.task in st.tasks
  {
    hide IsActive;
  }

  class PhaseTransitionGuard {
    var state: State
    ghost var trace: seq<Step>

    constructor (state: State)
      ensures this.state == state && trace == []
    {
      this.state, trace := state, [];
    }

    twostate predicate Did(steps: seq<Step>)
      reads this
    {
      state == ApplyAll(old(state), steps) && trace == old(trace) + steps
    }

    /** One atomic step, or none; `done` are the parts of this call so far. */
    method Perform(part: seq<Step>, ghost was: State, ghost before: seq<Step>, ghost done: seq<seq<Step>>)
      requires |part| <= 1 && state == ApplyAll(was, Flatten(done)) && trace == before + Flatten(done)
      modifies this
      ensures Did(part)
      ensures state == ApplyAll(was, Flatten(done + [part])) && trace == before + Flatten(done + [part])
    {
      hide Apply, Flatten;
      FlattenAppend(done, part);
      StepsAppend(was, Flatten(done), part);
      if part != [] {
        state := Apply(state, part[0]);
        trace := trace + [part[0]];
        assert part[1..] == [] && part == [part[0]];
      } else {
        assert trace + part == trace;
      }
      assert before + (Flatten(done) + part) == before + Flatten(done) + part;
    }

    /** From the activation on. What decides each step was read before the first
        one. */
    method FinishTransition(c: Call, g: Ground, resuming: bool) returns (ok: bool)
      modifies this
      ensures Did(Finish(old(state), c, g, resuming).steps) && ok == Finish(old(state), c, g, resuming).ok
    {
      hide Apply, ApplyAll, Admits, CanMove, CanRebind, Rebind, Taken, Flatten, MoveIfNeeded, SessionsOf;
      ghost var was, before := state, trace;
      EmptyParts(was, before);
      var read := state;
      if !Admits(read, c, g) { return false; }
      AdmitsFacts(read, c, g);
      var taken := Taken(read, c, resuming);
      if taken.None? { return false; }
      var last, next := g.definition.task, g.activation.task;
      var attach := if taken.value == SessionsOf(read, c.requirement) then [] else [WriteSessions(c.requirement, taken.value)];
      Perform(attach, was, before, []);
      if !CanRebind(taken.value, c.session, last, next) { return false; }
      var switch := if read.store.meta[c.requirement].task == Some(last) then [SwitchTask(c.requirement, next)] else [];
      assert [] + [attach] == [attach];
      Perform(switch, was, before, [attach]);
      var rebind := [WriteSessions(c.requirement, Rebind(taken.value, c.session, last, next))];
      assert [attach] + [switch] == [attach, switch];
      Perform(rebind, was, before, [attach, switch]);
      assert [attach, switch] + [rebind] == [attach, switch, rebind];
      if !CanMove(read, last, "done") { return false; }
      var finish := MoveIfNeeded(read, last, "done");
      Perform(finish, was, before, [attach, switch, rebind]);
      assert [attach, switch, rebind] + [finish] == [attach, switch, rebind, finish];
      if !CanMove(read, next, "in_progress") { return false; }
      var open := MoveIfNeeded(read, next, "in_progress");
      Perform(open, was, before, [attach, switch, rebind, finish]);
      assert [attach, switch, rebind, finish] + [open] == [attach, switch, rebind, finish, open];
      return true;
    }

    /** advance_next */
    method AdvanceNext(w: World, c: Call) returns (ok: bool)
      modifies this
      ensures Did(AdvancePlan(w, old(state), c).steps) && ok == AdvancePlan(w, old(state), c).ok
    {
      hide Finish, GateValid, ActivationValid, Definitions, Loadable, CanFinish, CanOpen, Bound, Flatten;
      if Blank(c.session) || Blank(c.agent) || c.completed < 0 { return false; }
      if PathOf(c) in state.store.activations {
        if !Resumable(w, state.store, c) { return false; }
        ok := FinishTransition(c, ResumeGround(w, state.store, c), true);
      } else {
        if !Startable(w, state, c) { return false; }
        var g := StartGround(w, state.store, c);
        var journal := WriteActivation(PathOf(c), g.activation);
        ghost var was, before := state, trace;
        EmptyParts(was, before);
        FinishIgnores(state, c, g);
        Perform([journal], was, before, []);
        ghost var rest := Finish(state, c, g, false).steps;
        ok := FinishTransition(c, g, false);
        StepsAppend(was, [journal], rest);
        assert before + [journal] + rest == before + ([journal] + rest);
      }
    }
  }

  lemma EmptyParts(st: State, trace: seq<Step>)
    ensures Flatten([]) == [] && ApplyAll(st, Flatten([])) == st && trace + Flatten([]) == trace
    ensures trace + [] == trace
  {
  }

  lemma FinishIgnores(st: State, c: Call, g: Ground)
    ensures Finish(ApplyAll(st, [WriteActivation(PathOf(c), g.activation)]), c, g, false) == Finish(st, c, g, false)
  {
    hide CanRebind, Rebind, Attach, Flatten, IsActive;
    assert [WriteActivation(PathOf(c), g.activation)][1..] == [];
  }
}
