/** Every run of transitions, gate operations and outside changes, each stopped
    anywhere, HEAD moving as it likes: a requirement's phase never goes back, and
    every phase it entered has an activation that stands on its gate. */
module TransitionRuns {
  import opened Utf8
  import opened Strings
  import opened GateRecords
  import opened GateChain
  import GateOps
  import opened GateFrames
  import opened GateRuns
  import GateLineage
  import opened PhaseHistory
  import opened Transition
  import opened TransitionCrash
  import opened TransitionTheorems

  /** What can happen between two states: a transition or a gate operation cut
      after some of its steps, or sessions, tasks, receipts and metadata changed
      by others. */
  datatype Event =
    | Advance(world: World, call: Call, cut: nat)
    | Gates(world: World, op: GateOps.Op, cut: nat)
    | Outside(sessions: map<string, seq<Session>>, tasks: map<string, Task>, receipts: map<(string, string), Receipt>,
              meta: map<string, Meta>)

  /** Others may change everything but a current task that is set. */
  function Merged(was: map<string, Meta>, meta: map<string, Meta>): map<string, Meta> {
    map r | r in was.Keys + meta.Keys ::
      if r in was && (r !in meta || was[r].task.Some?)
      then Meta(was[r].task, if r in meta then meta[r].status else was[r].status, if r in meta then meta[r].gated else was[r].gated)
      else meta[r]
  }

  function After(st: State, e: Event): State {
    match e
    case Advance(w, c, k) => ApplyAll(st, Prefix(AdvancePlan(w, st, c).steps, k))
    case Gates(w, op, k) => st.(store := GateOps.Leaves(st.store, GateOps.Act(w, st.store.meta, st.store.receipts, op, k)))
    case Outside(sessions, tasks, receipts, meta) =>
      State(st.store.(receipts := receipts, meta := Merged(st.store.meta, meta)), sessions, tasks)
  }

  function Run(st: State, events: seq<Event>): State
    decreases |events|
  {
    if events == [] then st else Run(After(st, events[0]), events[1..])
  }

  // ----- the steps of a transition, one at a time -----

  /** A step of a transition of this call: it may file this activation and
      switch the current task to its task. */
  predicate OfCall(x: Step, c: Call, a: Activation) {
    match x
    case WriteActivation(p, b) => p == PathOf(c) && b == a
    case WriteSessions(_, _) => true
    case SwitchTask(r, t) => r == c.requirement && t == a.task
    case MoveTask(_, _) => true
  }

  predicate Switches(steps: seq<Step>) {
    exists x | x in steps :: x.SwitchTask?
  }

  /** What steps of one call can do to the store. */
  lemma {:induction false} StepsTouch(st: State, c: Call, a: Activation, steps: seq<Step>)
    requires forall x | x in steps :: OfCall(x, c, a)
    ensures var s, s' := st.store, ApplyAll(st, steps).store;
            && s'.gates == s.gates && s'.reviews == s.reviews && s'.reopens == s.reopens && s'.history == s.history
            && s'.receipts == s.receipts
            && (s'.activations == s.activations || s'.activations == s.activations[PathOf(c) := a])
            && (s'.meta == s.meta
                || (Switches(steps) && c.requirement in s.meta
                    && s'.meta == s.meta[c.requirement := s.meta[c.requirement].(task := Some(a.task))]))
            && (steps != [] && steps[0].WriteActivation? ==> s'.activations == s.activations[PathOf(c) := a])
    decreases |steps|
  {
    if steps != [] {
      assert steps[0] in steps && forall x | x in steps[1..] :: x in steps;
      StepsTouch(Apply(st, steps[0]), c, a, steps[1..]);
    }
  }

  /** The current task is that of the phase just finished, as the commit of its
      gate declares it. */
  predicate From(w: World, s: Store, r: string, completed: int) {
    && (r, completed) in s.gates
    && var commit := s.gates[(r, completed)].commit;
    && Loadable(w.commits, commit, (r, completed))
    && r in s.meta && s.meta[r].task == Some(DefinitionAt(w.commits, commit, r, completed).task)
  }

  /** The shape of a call's steps. */
  lemma PlanShape(w: World, st: State, c: Call) returns (a: Activation)
    requires Sound(st.store)
    ensures var steps := AdvancePlan(w, st, c).steps;
            && (forall x | x in steps :: OfCall(x, c, a))
            && (steps != [] ==>
                  if PathOf(c) in st.store.activations
                  then st.store.activations[PathOf(c)] == a && forall x | x in steps :: !x.WriteActivation?
                  else steps[0].WriteActivation? && ActivationValid(w, st.store, a)
                       && a.requirement == c.requirement && a.phase == c.completed + 1)
            && (Switches(steps) ==> From(w, st.store, c.requirement, c.completed))
  {
    hide GateValid, ActivationValid, Loadable, Finish, CanFinish, CanOpen, Bound, Definitions, Sound;
    var resuming := PathOf(c) in st.store.activations;
    if !Blank(c.session) && !Blank(c.agent) && c.completed >= 0
       && (if resuming then Resumable(w, st.store, c) else Startable(w, st, c)) {
      var g := if resuming then ResumeGround(w, st.store, c) else StartGround(w, st.store, c);
      a := g.activation;
      FinishShape(st, c, g, resuming);
      GroundAtHead(w, st, c, g, resuming);
    } else {
      a := *;
    }
  }

  lemma FinishShape(st: State, c: Call, g: Ground, resuming: bool)
    ensures var steps := Finish(st, c, g, resuming).steps;
            && (forall x | x in steps :: OfCall(x, c, g.activation) && !x.WriteActivation?)
            && (Switches(steps) ==>
                  c.requirement in st.store.meta && st.store.meta[c.requirement].task == Some(g.definition.task))
  {
    hide CanRebind, Rebind, Attach, Flatten, CanMove, CanFinish, CanOpen, IsActive;
    var plan := Finish(st, c, g, resuming);
    forall x | x in plan.steps
      ensures OfCall(x, c, g.activation) && !x.WriteActivation?
      ensures x.SwitchTask? ==> c.requirement in st.store.meta && st.store.meta[c.requirement].task == Some(g.definition.task)
    {
      if plan.ok {
        PlanIsParts(st, c, g, resuming);
        FlattenMember(Parts(st, c, g, resuming), x);
      } else if Admits(st, c, g) && Taken(st, c, resuming).Some?
                && CanRebind(Taken(st, c, resuming).value, c.session, g.definition.task, g.activation.task) {
        FailedIsParts(st, c, g, resuming);
        FlattenMember(FailedParts(st, c, g, resuming), x);
      }
    }
  }

  /** The store a cut transition leaves: at most the activation and the switch
      of the current task, never the second without the first, and then from the
      task that the finished phase's gate was issued for. */
  lemma AdvanceLeaves(w: World, st: State, c: Call, k: nat) returns (a: Activation, switched: bool)
    requires Sound(st.store)
    ensures var s, s' := st.store, ApplyAll(st, Prefix(AdvancePlan(w, st, c).steps, k)).store;
            && s' == s.(activations := s'.activations, meta := s'.meta)
            && (s'.activations == s.activations
                || (PathOf(c) !in s.activations && s'.activations == s.activations[PathOf(c) := a]
                    && ActivationValid(w, s, a) && a.requirement == c.requirement && a.phase == c.completed + 1))
            && (!switched ==> s'.meta == s.meta)
            && (switched ==>
                  && From(w, s, c.requirement, c.completed)
                  && s'.meta == s.meta[c.requirement := s.meta[c.requirement].(task := Some(a.task))]
                  && PathOf(c) in s'.activations && s'.activations[PathOf(c)] == a)
  {
    hide Sound, ActivationValid, AdvancePlan, From;
    var steps := AdvancePlan(w, st, c).steps;
    a := PlanShape(w, st, c);
    var cut := Prefix(steps, k);
    assert forall x | x in cut :: x in steps;
    StepsTouch(st, c, a, cut);
    switched := ApplyAll(st, cut).store.meta != st.store.meta;
  }

  // ----- the phase never goes back -----

  /** The phase a requirement is in: that of the activation for its current
      task, or 0 while there is none. */
  predicate InPhase(s: Store, r: string, j: int) {
    && r in s.meta && s.meta[r].task.Some? && j >= 0
    && if j == 0 then forall p | p in s.activations && p.0 == r :: s.activations[p].task != s.meta[r].task.value
       else (r, j) in s.activations && s.activations[(r, j)].task == s.meta[r].task.value
  }

  /** A requirement with a current task is in exactly one phase. */
  lemma PhaseIsUnique(u: Commits, s: Store, r: string, i: int, j: int)
    requires Held(u, s) && InPhase(s, r, i) && InPhase(s, r, j)
    ensures i == j
  {
    hide Held;
    if i != 0 && j != 0 {
      if i < j { ActivationsApart(u, s, r, i, j); }
      if j < i { ActivationsApart(u, s, r, j, i); }
    }
  }

  lemma PhaseExists(u: Commits, s: Store, r: string) returns (j: int)
    requires Held(u, s) && r in s.meta && s.meta[r].task.Some?
    ensures InPhase(s, r, j)
  {
    hide Sound, Declares, Rooted;
    if p :| p in s.activations && p.0 == r && s.activations[p].task == s.meta[r].task.value {
      j := p.1;
      assert (r, j) == p && Authorised(u, s, p);
    } else {
      j := 0;
    }
  }

  /** HEAD may be anywhere in any event, but commits never change. */
  predicate Within(u: Commits, e: Event) {
    !e.Outside? ==> CommitsGrow(e.world.commits, u)
  }

  lemma {:induction false} WritesKeepMeta(s: Store, ws: seq<GateOps.Write>)
    ensures GateOps.ApplyAll(s, ws).meta == s.meta
    decreases |ws|
  {
    hide GateOps.Apply;
    if ws != [] {
      WriteKeepsMeta(s, ws[0]);
      WritesKeepMeta(GateOps.Apply(s, ws[0]), ws[1..]);
    }
  }

  lemma WriteKeepsMeta(s: Store, w: GateOps.Write)
    ensures GateOps.Apply(s, w).meta == s.meta
  {
  }

  /** What an event leaves alone: the current task of every requirement, but for
      the one whose transition switches it, and every activation. */
  predicate SameTask(s: Store, s': Store, r: string) {
    && (forall p | p in s.activations :: p in s'.activations && s'.activations[p] == s.activations[p])
    && (r in s.meta && s.meta[r].task.Some? ==> r in s'.meta && s'.meta[r].task == s.meta[r].task)
  }

  lemma StaysInPhase(u: Commits, s: Store, s': Store, r: string, j: int) returns (j': int)
    requires Held(u, s') && InPhase(s, r, j) && SameTask(s, s', r)
    ensures InPhase(s', r, j') && j <= j' && (j > 0 ==> j' == j)
  {
    hide Held;
    j' := PhaseExists(u, s', r);
    if j > 0 {
      PhaseIsUnique(u, s', r, j, j');
    }
  }

  lemma GatesStep(u: Commits, st: State, e: Event, r: string)
    requires Held(u, st.store) && e.Gates? && Within(u, e)
    ensures Held(u, After(st, e).store) && SameTask(st.store, After(st, e).store, r)
  {
    hide Sound, GatesKept, ReviewsKept, Rooted, Authorised, GateOps.PlanOf, CommitsGrow;
    var act := GateOps.Act(e.world, st.store.meta, st.store.receipts, e.op, e.cut);
    StepKeepsHeld(u, st.store, act);
    StepKeeps(st.store, act);
    var before := GateOps.Before(st.store, act);
    WritesKeepMeta(before, GateOps.Prefix(GateOps.PlanOf(e.world, before, e.op).writes, e.cut));
  }

  lemma OutsideStep(u: Commits, st: State, e: Event, r: string)
    requires Held(u, st.store) && e.Outside?
    ensures Held(u, After(st, e).store) && SameTask(st.store, After(st, e).store, r)
  {
    hide Held;
    MetaAside(u, st.store, Merged(st.store.meta, e.meta), e.receipts);
  }

  lemma AdvanceKeepsHeld(u: Commits, w: World, s: Store, s': Store, a: Activation)
    requires Held(u, s) && CommitsGrow(w.commits, u) && s' == s.(activations := s'.activations, meta := s'.meta)
    requires s'.activations == s.activations
             || ((a.requirement, a.phase) !in s.activations && s'.activations == s.activations[(a.requirement, a.phase) := a]
                 && ActivationValid(w, s, a))
    ensures Held(u, s')
  {
    hide Sound, Rooted, Authorised, CommitsGrow, ActivationValid, Safe;
    var journalled := s.(activations := s'.activations);
    if s'.activations != s.activations {
      var put := GateOps.PutActivation((a.requirement, a.phase), a);
      ActivateIsSafe(w, s, a);
      assert GateOps.ActivatePlan(w, s, a).writes == [put];
      WriteKeepsHeld(u, w, s, put);
      assert GateOps.Apply(s, put) == journalled;
    } else {
      assert journalled == s;
    }
    MetaAside(u, journalled, s'.meta, s'.receipts);
    assert s' == journalled.(meta := s'.meta, receipts := s'.receipts);
  }

  lemma AdvanceHolds(u: Commits, w: World, st: State, c: Call, k: nat) returns (a: Activation, switched: bool)
    requires Held(u, st.store) && CommitsGrow(w.commits, u)
    ensures var s, s' := st.store, ApplyAll(st, Prefix(AdvancePlan(w, st, c).steps, k)).store;
            && Held(u, s') && s'.gates == s.gates
            && (s'.activations == s.activations || s'.activations == s.activations[PathOf(c) := a])
            && (forall p | p in s.activations :: p in s'.activations && s'.activations[p] == s.activations[p])
            && (!switched ==> s'.meta == s.meta)
            && (switched ==>
                  && From(w, s, c.requirement, c.completed)
                  && s'.meta == s.meta[c.requirement := s.meta[c.requirement].(task := Some(a.task))]
                  && PathOf(c) in s'.activations && s'.activations[PathOf(c)] == a)
  {
    hide Held, From, ActivationValid, AdvancePlan, ApplyAll, CommitsGrow, Prefix;
    HeldIsSound(u, st.store);
    a, switched := AdvanceLeaves(w, st, c, k);
    AdvanceKeepsHeld(u, w, st.store, ApplyAll(st, Prefix(AdvancePlan(w, st, c).steps, k)).store, a);
  }

  /** A transition takes a requirement from one phase to the next, or leaves it
      where it is. */
  lemma AdvanceStep(u: Commits, st: State, e: Event, r: string, j: int) returns (j': int)
    requires Held(u, st.store) && InPhase(st.store, r, j) && e.Advance? && Within(u, e)
    ensures Held(u, After(st, e).store) && InPhase(After(st, e).store, r, j')
    ensures j <= j' && (j > 0 ==> j' <= j + 1)
  {
    hide Held, InPhase, From, AdvancePlan, ApplyAll, CommitsGrow, Prefix;
    var a, switched := AdvanceHolds(u, e.world, st, e.call, e.cut);
    var s, s' := st.store, After(st, e).store;
    PhaseHasTask(s, r, j);
    if switched && e.call.requirement == r {
      MovesOn(u, e.world, s, s', r, j, e.call.completed, a);
      j' := j + 1;
    } else {
      j' := StaysInPhase(u, s, s', r, j);
    }
  }

  lemma PhaseHasTask(s: Store, r: string, j: int)
    requires InPhase(s, r, j)
    ensures r in s.meta && s.meta[r].task.Some?
  {
  }

  lemma HeldIsSound(u: Commits, s: Store)
    requires Held(u, s)
    ensures Sound(s)
  {
    hide Sound, Rooted, Authorised;
  }

  /** A switch of the current task can only be from the phase the requirement is
      in, because the task it starts from is the task of that phase alone. */
  lemma LeavesItsPhase(u: Commits, s: Store, s': Store, r: string, j: int, c: int)
    requires Held(u, s') && InPhase(s, r, j) && GateTask(u, s', r, c, s.meta[r].task.value)
    requires (r, c + 1) in s'.activations && forall p | p in s'.activations && p != (r, c + 1) :: p in s.activations
    requires forall p | p in s.activations :: p in s'.activations && s'.activations[p] == s.activations[p]
    ensures c == j
  {
    hide Held, PinsGate;
    StandsOnGate(u, s', (r, c + 1));
    if j > 0 {
      GateTaskIsPhase(u, s', r, c, j, s.meta[r].task.value);
    } else if c >= 1 {
      Ladder(u, s', r, c, c);
      GateTaskIsPhase(u, s', r, c, c, s.meta[r].task.value);
    }
  }

  lemma MovesOn(u: Commits, w: World, s: Store, s': Store, r: string, j: int, c: int, a: Activation)
    requires Held(u, s') && InPhase(s, r, j) && From(w, s, r, c) && CommitsGrow(w.commits, u) && s'.gates == s.gates
    requires s'.meta == s.meta[r := s.meta[r].(task := Some(a.task))]
    requires (r, c + 1) in s'.activations && s'.activations[(r, c + 1)] == a
    requires s'.activations == s.activations || s'.activations == s.activations[(r, c + 1) := a]
    requires forall p | p in s.activations :: p in s'.activations && s'.activations[p] == s.activations[p]
    ensures c == j && InPhase(s', r, j + 1)
  {
    hide Held, From, GateTask, CommitsGrow;
    FromIsGateTask(u, w, s', s, r, c);
    LeavesItsPhase(u, s, s', r, j, c);
  }

  lemma FromIsGateTask(u: Commits, w: World, s': Store, s: Store, r: string, c: int)
    requires Held(u, s') && From(w, s, r, c) && CommitsGrow(w.commits, u) && s'.gates == s.gates && (r, c + 1) in s'.activations
    ensures GateTask(u, s', r, c, s.meta[r].task.value)
  {
    hide Sound, Rooted, GateLineage.Lineage, Definitions, Loadable;
    assert Authorised(u, s', (r, c + 1));
    RequirementAt(s', (r, c));
    var commit := s.gates[(r, c)].commit;
    InCommits(w.commits, commit, (r, c));
    DefinitionIsFile(u, commit, r, c);
  }

  /** Each event leaves a requirement in its phase or moves it up, one phase at a
      time once its current task has an activation. */
  lemma EventPhase(u: Commits, st: State, e: Event, r: string, j: int) returns (j': int)
    requires Held(u, st.store) && InPhase(st.store, r, j) && Within(u, e)
    ensures Held(u, After(st, e).store) && InPhase(After(st, e).store, r, j')
    ensures j <= j' && (j > 0 ==> j' <= j + 1)
  {
    hide Held, InPhase, Within, After, SameTask;
    match e {
      case Advance(_, _, _) => j' := AdvanceStep(u, st, e, r, j);
      case Gates(_, _, _) =>
        GatesStep(u, st, e, r);
        j' := StaysInPhase(u, st.store, After(st, e).store, r, j);
      case Outside(_, _, _, _) =>
        OutsideStep(u, st, e, r);
        j' := StaysInPhase(u, st.store, After(st, e).store, r, j);
    }
  }

  /** Phase k was entered: its activation stands on the gate below, exactly as
      recorded. */
  predicate Entered(s: Store, r: string, k: int) {
    (r, k) in s.activations && (r, k - 1) in s.gates && PinsGate(s.activations[(r, k)], s.gates[(r, k - 1)])
  }

  lemma PhasesEntered(u: Commits, s: Store, r: string, j: int, k: int)
    requires Held(u, s) && InPhase(s, r, j) && 0 < k <= j
    ensures Entered(s, r, k)
  {
    hide Held, PinsGate;
    StandsOnGate(u, s, (r, j));
    if k < j { Ladder(u, s, r, j - 1, k); }
    StandsOnGate(u, s, (r, k));
  }

  lemma {:induction false} PhaseGoesOn(u: Commits, st: State, events: seq<Event>, r: string, j: int) returns (j': int)
    requires Held(u, st.store) && InPhase(st.store, r, j) && forall e | e in events :: Within(u, e)
    ensures Held(u, Run(st, events).store) && InPhase(Run(st, events).store, r, j') && j <= j'
    decreases |events|
  {
    hide Held, InPhase, Within, After;
    if events == [] {
      j' := j;
    } else {
      assert events[0] in events;
      var k := EventPhase(u, st, events[0], r, j);
      j' := PhaseGoesOn(u, After(st, events[0]), events[1..], r, k);
    }
  }

  lemma {:induction false} RunHolds(u: Commits, st: State, events: seq<Event>)
    requires Held(u, st.store) && forall e | e in events :: Within(u, e)
    ensures Held(u, Run(st, events).store)
    decreases |events|
  {
    hide Held, Within, After;
    if events != [] {
      var e := events[0];
      assert e in events;
      EventHolds(u, st, e);
      RunHolds(u, After(st, e), events[1..]);
    }
  }

  lemma EventHolds(u: Commits, st: State, e: Event)
    requires Held(u, st.store) && Within(u, e)
    ensures Held(u, After(st, e).store)
  {
    hide Held, From, AdvancePlan, ApplyAll, CommitsGrow, SameTask, Prefix;
    match e {
      case Advance(w, c, k) => var a, switched := AdvanceHolds(u, w, st, c, k);
      case Gates(_, _, _) => GatesStep(u, st, e, "");
      case Outside(_, _, _, _) => OutsideStep(u, st, e, "");
    }
  }

  lemma {:induction false} RunSplits(st: State, first: seq<Event>, rest: seq<Event>)
    ensures Run(st, first + rest) == Run(Run(st, first), rest)
    decreases |first|
  {
    hide After;
    if first == [] {
      assert first + rest == rest;
    } else {
      RunSplits(After(st, first[0]), first[1..], rest);
      assert (first + rest)[1..] == first[1..] + rest;
    }
  }

  const NOTHING: State := State(GateOps.EMPTY, map[], map[])

  /** Over every run, each event stopped anywhere, each at any HEAD, definitions
      of phases not yet issued changing as they like: once a requirement has a
      current task it is always in exactly one phase, that phase never goes back,
      and every phase it entered has an activation standing on the gate below it,
      exactly as recorded. */
  lemma PhaseNeverGoesBack(u: Commits, before: seq<Event>, after: seq<Event>, r: string) returns (j: int, j': int)
    requires forall e | e in before + after :: Within(u, e)
    requires var s := Run(NOTHING, before).store; r in s.meta && s.meta[r].task.Some?
    ensures var s, s' := Run(NOTHING, before).store, Run(NOTHING, before + after).store;
            && (forall i :: InPhase(s, r, i) <==> i == j) && (forall i :: InPhase(s', r, i) <==> i == j')
            && j <= j' && forall k | 0 < k <= j' :: Entered(s', r, k)
  {
    hide Held, InPhase, Within, After, Run, Entered;
    var st := Run(NOTHING, before);
    assert forall e | e in before :: e in before + after;
    assert forall e | e in after :: e in before + after;
    EmptyIsHeld(u);
    RunHolds(u, NOTHING, before);
    j := PhaseExists(u, st.store, r);
    j' := PhaseGoesOn(u, st, after, r, j);
    RunSplits(NOTHING, before, after);
    var s' := Run(st, after).store;
    forall i | InPhase(st.store, r, i) ensures i == j { PhaseIsUnique(u, st.store, r, i, j); }
    forall i | InPhase(s', r, i) ensures i == j' { PhaseIsUnique(u, s', r, i, j'); }
    forall k | 0 < k <= j' ensures Entered(s', r, k) { PhasesEntered(u, s', r, j', k); }
  }
}
