/** Crash recovery of advance_next, and what holds when the next task opens. */
module TransitionTheorems {
  import opened Utf8
  import opened Strings
  import opened GateRecords
  import opened GateChain
  import opened GateRuns
  import opened GateFrames
  import GateOps
  import opened Transition
  import opened TransitionCrash

  // ----- the ground of a call -----

  /** What an accepted call works from. */
  ghost predicate Grounded(w: World, st: State, c: Call, g: Ground, resuming: bool) {
    && !Blank(c.session) && !Blank(c.agent) && c.completed >= 0
    && if resuming
       then PathOf(c) in st.store.activations && Resumable(w, st.store, c) && g == ResumeGround(w, st.store, c)
       else PathOf(c) !in st.store.activations && Startable(w, st, c) && g == StartGround(w, st.store, c)
  }

  /** The two tasks differ: the definitions at HEAD name every task once. */
  lemma TasksDiffer(w: World, st: State, c: Call, g: Ground, resuming: bool)
    requires Grounded(w, st, c, g, resuming)
    ensures g.definition.task != g.activation.task
  {
    hide GateValid, ActivationValid, Loadable, CanFinish, CanOpen, Bound;
    DefinitionsFacts(w.commits, w.head, c.requirement);
  }

  /** The state with the activation on file. */
  function Journalled(st: State, c: Call, g: Ground): State {
    Apply(st, WriteActivation(PathOf(c), g.activation))
  }

  lemma FinishIgnoresActivation(st: State, c: Call, g: Ground)
    ensures Finish(Journalled(st, c, g), c, g, false) == Finish(st, c, g, false)
    ensures Finish(st, c, g, false).ok ==>
              TakenFor(Journalled(st, c, g), c, g, false) == TakenFor(st, c, g, false)
              && Parts(Journalled(st, c, g), c, g, false) == Parts(st, c, g, false)
  {
    hide CanRebind, Rebind, Attach, Flatten, IsActive;
  }

  /** The definition a fresh call starts from is the one its gate was issued
      against, which a resumed call reads back. */
  lemma StartReadsBack(w: World, st: State, c: Call)
    requires Sound(st.store) && Startable(w, st, c)
    ensures var gate := st.store.gates[(c.requirement, c.completed)];
            && Loadable(w.commits, gate.commit, (c.requirement, c.completed))
            && DefinitionAt(w.commits, gate.commit, c.requirement, c.completed) == StartGround(w, st.store, c).definition
  {
    hide ActivationValid, ChainValid, PhaseActivated, ReceiptsBind, Succeeds, PassFacts, Pinned, Loadable, CanFinish, CanOpen, Bound;
    DefinitionsFacts(w.commits, w.head, c.requirement);
    var gate := st.store.gates[(c.requirement, c.completed)];
    assert Load(w.commits, w.head, (c.requirement, c.completed)).Some?;
  }

  /** A later world in which the transition can go on: HEAD may have moved on as
      long as it keeps the definitions and plans of the finished phases and
      declares a whole chain. */
  ghost predicate Follows(w: World, w': World, c: Call) {
    && LaterWorld(w, w', c.requirement, c.completed + 1)
    && Definitions(w'.commits, w'.head, c.requirement).Some?
  }

  lemma FollowsItself(w: World, st: State, c: Call, g: Ground, resuming: bool)
    requires Grounded(w, st, c, g, resuming)
    ensures Follows(w, w, c)
  {
    hide GateValid, ActivationValid, Loadable, Definitions, CanFinish, CanOpen, Bound;
    SameHead(w, w, c.requirement, c.completed + 1);
  }

  /** What HEAD declares for the finished phase is what the ground says. */
  lemma GroundAtHead(w: World, st: State, c: Call, g: Ground, resuming: bool)
    requires Sound(st.store) && Grounded(w, st, c, g, resuming)
    ensures var ds := Definitions(w.commits, w.head, c.requirement);
            && ds.Some? && 0 <= c.completed < |ds.value|
            && ds.value[c.completed].task == g.definition.task && ds.value[c.completed].next == Some(g.activation.task)
    ensures (c.requirement, c.completed) in st.store.gates
    ensures var gate := st.store.gates[(c.requirement, c.completed)];
            && Loadable(w.commits, gate.commit, (c.requirement, c.completed))
            && DefinitionAt(w.commits, gate.commit, c.requirement, c.completed) == g.definition
            && g.activation.predecessorFingerprint == OfGate(gate)
    ensures g.activation.requirement == c.requirement && g.activation.phase == c.completed + 1
            && g.activation.predecessorPhase == c.completed && ActivationValid(w, st.store, g.activation)
  {
    hide ActivationValid, GateValid, Pinned, WellFiled, Loadable, CanFinish, CanOpen, Bound, Definitions;
    if !resuming { StartReadsBack(w, st, c); }
  }

  /** The journal is accepted again later, whatever part of the switch is done. */
  lemma GroundedLater(w: World, w': World, st: State, c: Call, g: Ground, resuming: bool, st': State)
    requires Sound(st.store) && Grounded(w, st, c, g, resuming) && Follows(w, w', c)
    requires SameBelow(st.store, st'.store, c.requirement, c.completed + 1)
    requires PathOf(c) in st'.store.activations && st'.store.activations[PathOf(c)] == g.activation
    ensures Grounded(w', st', c, g, true)
  {
    hide ActivationValid, GateValid, Pinned, WellFiled, Loadable, CanFinish, CanOpen, Bound, Definitions, KeepsDefinition, Upholds,
      SameAt, IsAncestor;
    GroundAtHead(w, st, c, g, resuming);
    var path := (c.requirement, c.completed);
    assert SameAt(st.store, st'.store, path);
    assert st'.store.gates[path] == st.store.gates[path] by { SameGate(st.store, st'.store, path); }
    StaysValid(w, w', st.store, st'.store, g.activation);
    assert KeepsDefinition(w, w', path);
    KeptDefinition(w, w', path);
    var commit := st.store.gates[path].commit;
    InCommits(w.commits, commit, path);
    LoadableGrows(w.commits, w'.commits, commit, path);
    assert DefinitionAt(w'.commits, commit, c.requirement, c.completed) == DefinitionAt(w.commits, commit, c.requirement, c.completed);
  }

  lemma SameGate(s: Store, s': Store, path: Path)
    requires SameAt(s, s', path) && path in s.gates
    ensures path in s'.gates && s'.gates[path] == s.gates[path]
  {
  }

  lemma GroundedAtStage(w: World, w': World, st: State, c: Call, g: Ground, resuming: bool, taken: seq<Session>, n: int)
    requires Sound(st.store) && Grounded(w, st, c, g, resuming) && Follows(w, w', c)
    requires CanRebind(taken, c.session, g.definition.task, g.activation.task)
    ensures var base := if resuming then st else Journalled(st, c, g);
            Grounded(w', Stage(base, c, g, taken, n), c, g, true)
  {
    hide ActivationValid, GateValid, CanRebind, Rebind, SetStatus, Pinned, WellFiled, Loadable, CanFinish, CanOpen, Bound, Definitions,
      Follows;
    var base := if resuming then st else Journalled(st, c, g);
    var st' := Stage(base, c, g, taken, n);
    StageKeepsStore(base, c, g, taken, n);
    assert SameBelow(st.store, st'.store, c.requirement, c.completed + 1);
    GroundedLater(w, w', st, c, g, resuming, st');
  }

  lemma StageKeepsStore(st: State, c: Call, g: Ground, taken: seq<Session>, n: int)
    requires CanRebind(taken, c.session, g.definition.task, g.activation.task)
    ensures var s, s' := st.store, Stage(st, c, g, taken, n).store;
            s'.gates == s.gates && s'.activations == s.activations && s'.reopens == s.reopens && s'.receipts == s.receipts
  {
    hide CanRebind, Rebind, SetStatus;
  }

  /** A transition that writes its activation starts from a gate issued on the
      clean HEAD, by a session that holds one of the two phase tasks; and the
      activation pins exactly that gate. */
  lemma StartsFromCurrentGate(w: World, st: State, c: Call, p: Path, a: Activation)
    requires Sound(st.store) && WriteActivation(p, a) in AdvancePlan(w, st, c).steps
    ensures p == PathOf(c) && (c.requirement, c.completed) in st.store.gates
    ensures var gate := st.store.gates[(c.requirement, c.completed)];
            && GateValid(w, st.store, gate) && gate.commit == w.head && w.clean && PinsGate(a, gate)
            && var bound := Bound(SessionsOf(st, c.requirement), c.session); (gate.task in bound || a.task in bound)
  {
    hide ChainValid, PhaseActivated, ReceiptsBind, Succeeds, PassFacts, Pinned, Loadable, CanFinish, CanOpen, Bound,
      Definitions, Finish, Declared;
    var x := WriteActivation(p, a);
    if PathOf(c) in st.store.activations {
      if Resumable(w, st.store, c) { FinishWritesNoActivation(st, c, ResumeGround(w, st.store, c), true, x); }
    } else if Startable(w, st, c) {
      var g := StartGround(w, st.store, c);
      FinishWritesNoActivation(st, c, g, false, x);
      StartPins(w, st, c);
      StartTask(w, st, c);
    }
  }

  lemma StartTask(w: World, st: State, c: Call)
    requires WellFiled(st.store) && Startable(w, st, c)
    ensures st.store.gates[(c.requirement, c.completed)].task == StartGround(w, st.store, c).definition.task
  {
    hide ChainValid, PhaseActivated, ReceiptsBind, Succeeds, PassFacts, ActivationValid, Loadable, CanFinish, CanOpen, Bound,
      Definitions;
  }

  lemma StartPins(w: World, st: State, c: Call)
    requires WellFiled(st.store) && Startable(w, st, c)
    ensures var gate := st.store.gates[(c.requirement, c.completed)]; PinsGate(StartGround(w, st.store, c).activation, gate)
  {
    hide ChainValid, GateValid, Loadable, Definitions, CanFinish, CanOpen, Bound, Load, IsAncestor;
  }

  lemma FinishWritesNoActivation(st: State, c: Call, g: Ground, resuming: bool, x: Step)
    requires x.WriteActivation?
    ensures x !in Finish(st, c, g, resuming).steps
  {
    hide CanRebind, Rebind, Attach, Flatten, CanMove, CanFinish, CanOpen, IsActive;
    var plan := Finish(st, c, g, resuming);
    if x in plan.steps {
      if plan.ok {
        PlanIsParts(st, c, g, resuming);
        FlattenMember(Parts(st, c, g, resuming), x);
      } else if Admits(st, c, g) && Taken(st, c, resuming).Some?
                && CanRebind(Taken(st, c, resuming).value, c.session, g.definition.task, g.activation.task) {
        FailedIsParts(st, c, g, resuming);
        FlattenMember(FailedParts(st, c, g, resuming), x);
      }
    }
  }

  // ----- crashes and retries -----

  lemma SoundIgnoresMeta(s: Store, m: map<string, Meta>)
    requires Sound(s)
    ensures Sound(s.(meta := m))
  {
    forall q | q in s.reopens ensures ReadReopen(s.(meta := m), q).ReadJournal? { ReadsOnly(s, s.(meta := m), q); }
  }

  lemma JournalIsSound(w: World, s: Store, a: Activation)
    requires Sound(s) && ActivationValid(w, s, a) && (a.requirement, a.phase) !in s.activations
    ensures Sound(s.(activations := s.activations[(a.requirement, a.phase) := a]))
    ensures Keeps(s, s.(activations := s.activations[(a.requirement, a.phase) := a]))
  {
    hide Sound, ActivationValid, Keeps, Safe;
    var put := GateOps.PutActivation((a.requirement, a.phase), a);
    ActivateIsSafe(w, s, a);
    assert GateOps.ActivatePlan(w, s, a).writes == [put];
    ApplyIsSound(s, put);
    ApplyKeeps(s, put);
  }

  lemma SoundAtStage(w: World, st: State, c: Call, g: Ground, resuming: bool, taken: seq<Session>, n: int)
    requires Sound(st.store) && Grounded(w, st, c, g, resuming)
    requires CanRebind(taken, c.session, g.definition.task, g.activation.task)
    ensures Sound(Stage(if resuming then st else Journalled(st, c, g), c, g, taken, n).store)
  {
    hide ActivationValid, GateValid, CanRebind, Rebind, SetStatus, Sound, Loadable, CanFinish, CanOpen, Bound, Definitions;
    var base := if resuming then st else Journalled(st, c, g);
    if !resuming { JournalIsSound(w, st.store, g.activation); }
    SoundIgnoresMeta(base.store, Stage(base, c, g, taken, n).store.meta);
  }

  /** An accepted call's ground, and its plan from there. */
  lemma GroundOf(w: World, st: State, c: Call) returns (g: Ground, resuming: bool)
    requires AdvancePlan(w, st, c).ok
    ensures Grounded(w, st, c, g, resuming) && Finish(st, c, g, resuming).ok
    ensures resuming == (PathOf(c) in st.store.activations)
  {
    hide GateValid, ActivationValid, Definitions, Loadable, Finish, CanFinish, CanOpen, Bound;
    resuming := PathOf(c) in st.store.activations;
    g := if resuming then ResumeGround(w, st.store, c) else StartGround(w, st.store, c);
  }

  lemma PlanFromGround(w: World, st: State, c: Call, g: Ground, resuming: bool)
    requires Grounded(w, st, c, g, resuming)
    ensures var rest := Finish(st, c, g, resuming);
            AdvancePlan(w, st, c) == if resuming then rest else Plan([WriteActivation(PathOf(c), g.activation)] + rest.steps, rest.ok)
  {
    hide Resumable, Startable, Finish;
  }

  /** A call cut after k steps has gone some way through the stages. */
  lemma CutAdvance(w: World, st: State, c: Call, g: Ground, resuming: bool, k: nat) returns (n: nat)
    requires Grounded(w, st, c, g, resuming) && Finish(st, c, g, resuming).ok && (resuming || k > 0)
    ensures n <= 5 && (k >= |AdvancePlan(w, st, c).steps| ==> n == 5)
    ensures var base := if resuming then st else Journalled(st, c, g);
            ApplyAll(st, Prefix(AdvancePlan(w, st, c).steps, k)) == Stage(base, c, g, TakenFor(st, c, g, resuming), n)
    ensures k < |AdvancePlan(w, st, c).steps| ==>
              n < 5 && Parts(st, c, g, resuming)[n] == [AdvancePlan(w, st, c).steps[k]]
              && (n == 4 ==> k == |AdvancePlan(w, st, c).steps| - 1)
  {
    hide Grounded, Finish, Stage, Apply, TakenFor, Parts;
    PlanFromGround(w, st, c, g, resuming);
    TasksDiffer(w, st, c, g, resuming);
    if resuming {
      n := CutFinish(st, c, g, true, k);
    } else {
      FinishIgnoresActivation(st, c, g);
      n := CutFinish(Journalled(st, c, g), c, g, false, k - 1);
      FirstStep(st, [WriteActivation(PathOf(c), g.activation)], Finish(st, c, g, false).steps, k);
      OneStep(st, [WriteActivation(PathOf(c), g.activation)]);
    }
  }

  /** A transition that is under way and will end in `end`. */
  ghost predicate Underway(w: World, st: State, c: Call, g: Ground, end: State) {
    Sound(st.store) && Grounded(w, st, c, g, true) && Finish(st, c, g, true).ok && End(st, c, g, true) == end
  }

  lemma StageUnderway(w: World, w': World, st: State, c: Call, g: Ground, resuming: bool, n: nat)
    requires Sound(st.store) && Grounded(w, st, c, g, resuming) && Finish(st, c, g, resuming).ok && n <= 5
    requires Follows(w, w', c)
    ensures var base := if resuming then st else Journalled(st, c, g);
            var taken := TakenFor(st, c, g, resuming);
            && Finish(base, c, g, resuming).ok
            && Underway(w', Stage(base, c, g, taken, n), c, g, End(base, c, g, resuming))
            && (n == 5 ==> Stage(base, c, g, taken, n) == End(base, c, g, resuming))
  {
    hide Sound, Grounded, Finish, Stage, TakenFor, Follows, CanRebind;
    var base := if resuming then st else Journalled(st, c, g);
    TasksDiffer(w, st, c, g, resuming);
    FinishIgnoresActivation(st, c, g);
    StageGoesOn(base, c, g, resuming, n);
    GroundedAtStage(w, w', st, c, g, resuming, TakenFor(st, c, g, resuming), n);
    SoundAtStage(w, st, c, g, resuming, TakenFor(st, c, g, resuming), n);
  }

  /** A later call by the same caller, cut after `steps` steps. */
  datatype Attempt = Attempt(world: World, steps: nat)

  ghost function AfterAttempts(st: State, c: Call, ts: seq<Attempt>): State
    decreases |ts|
  {
    if ts == [] then st
    else AfterAttempts(ApplyAll(st, Prefix(AdvancePlan(ts[0].world, st, c).steps, ts[0].steps)), c, ts[1..])
  }

  lemma AttemptGoesOn(w: World, st: State, c: Call, g: Ground, end: State, t: Attempt)
    requires Underway(w, st, c, g, end) && Follows(w, t.world, c)
    ensures var plan := AdvancePlan(t.world, st, c);
            var st' := ApplyAll(st, Prefix(plan.steps, t.steps));
            plan.ok && Underway(w, st', c, g, end) && (t.steps >= |plan.steps| ==> st' == end)
  {
    hide Sound, Grounded, Finish, Stage, TakenFor, CanRebind, AdvancePlan, Follows;
    FollowsItself(w, st, c, g, true);
    StageUnderway(w, t.world, st, c, g, true, 0);
    StageZero(st, c, g, TakenFor(st, c, g, true));
    PlanFromGround(t.world, st, c, g, true);
    var n := CutAdvance(t.world, st, c, g, true, t.steps);
    StageUnderway(w, w, st, c, g, true, n);
  }

  lemma {:induction false} AttemptsGoOn(w: World, st: State, c: Call, g: Ground, end: State, ts: seq<Attempt>)
    requires Underway(w, st, c, g, end) && forall t | t in ts :: Follows(w, t.world, c)
    ensures Underway(w, AfterAttempts(st, c, ts), c, g, end)
    decreases |ts|
  {
    hide Underway, AdvancePlan, ApplyAll, Follows;
    if ts != [] {
      AttemptGoesOn(w, st, c, g, end, ts[0]);
      AttemptsGoOn(w, ApplyAll(st, Prefix(AdvancePlan(ts[0].world, st, c).steps, ts[0].steps)), c, g, end, ts[1..]);
    }
  }

  /** A transition stopped after any of its steps, once its activation is on
      file, and retried any number of times by the same session, each retry
      stopped anywhere and HEAD moving on in between: the next retry that is not
      stopped succeeds and ends in exactly the state the first call would have
      ended in. */
  lemma TransitionRecovers(w: World, st: State, c: Call, k: nat, ts: seq<Attempt>, last: World)
    requires Sound(st.store) && AdvancePlan(w, st, c).ok && (k > 0 || PathOf(c) in st.store.activations)
    requires Follows(w, last, c) && forall t | t in ts :: Follows(w, t.world, c)
    ensures var first := AdvancePlan(w, st, c);
            var crashed := AfterAttempts(ApplyAll(st, Prefix(first.steps, k)), c, ts);
            var retry := AdvancePlan(last, crashed, c);
            retry.ok && ApplyAll(crashed, retry.steps) == ApplyAll(st, first.steps)
  {
    hide Sound, Grounded, Finish, Stage, TakenFor, CanRebind, AdvancePlan, Apply, Underway, End, Follows;
    var first := AdvancePlan(w, st, c);
    var g, resuming := GroundOf(w, st, c);
    FollowsItself(w, st, c, g, resuming);
    var n := CutAdvance(w, st, c, g, resuming, k);
    var whole := CutAdvance(w, st, c, g, resuming, |first.steps| + 1);
    StageUnderway(w, w, st, c, g, resuming, n);
    StageUnderway(w, w, st, c, g, resuming, whole);
    var base := if resuming then st else Journalled(st, c, g);
    var end := End(base, c, g, resuming);
    AttemptsGoOn(w, ApplyAll(st, Prefix(first.steps, k)), c, g, end, ts);
    var crashed := AfterAttempts(ApplyAll(st, Prefix(first.steps, k)), c, ts);
    var retry := AdvancePlan(last, crashed, c);
    AttemptGoesOn(w, crashed, c, g, end, Attempt(last, |retry.steps|));
  }

  // ----- the state it ends in -----

  /** A completed transition: the activation is on file, the requirement's
      current task, the session and both tasks are switched. */
  predicate Completed(st: State, c: Call, g: Ground) {
    && PathOf(c) in st.store.activations && st.store.activations[PathOf(c)] == g.activation
    && c.requirement in st.store.meta && st.store.meta[c.requirement].task == Some(g.activation.task)
    && g.activation.task in Bound(SessionsOf(st, c.requirement), c.session)
    && g.definition.task !in Bound(SessionsOf(st, c.requirement), c.session)
    && g.definition.task in st.tasks && st.tasks[g.definition.task].status == "done"
    && g.activation.task in st.tasks && st.tasks[g.activation.task].status == "in_progress"
  }

  /** Everything is switched but the next task's state. */
  predicate Prepared(st: State, c: Call, g: Ground) {
    Completed(st.(tasks := SetStatus(st.tasks, g.activation.task, "in_progress")), c, g)
    && g.definition.task in st.tasks && st.tasks[g.definition.task].status == "done"
  }

  lemma LateStages(w: World, st: State, c: Call, g: Ground, resuming: bool)
    requires Grounded(w, st, c, g, resuming) && Finish(st, c, g, resuming).ok
    ensures var base := if resuming then st else Journalled(st, c, g);
            var taken := TakenFor(st, c, g, resuming);
            Prepared(Stage(base, c, g, taken, 4), c, g) && Completed(Stage(base, c, g, taken, 5), c, g)
  {
    hide Grounded, Finish, Stage, TakenFor, CanRebind, Completed, Prepared, Journalled;
    var base := if resuming then st else Journalled(st, c, g);
    TasksDiffer(w, st, c, g, resuming);
    FinishIgnoresActivation(st, c, g);
    OnFile(w, st, c, g, resuming);
    LastStage(base, c, g, resuming);
  }

  lemma OnFile(w: World, st: State, c: Call, g: Ground, resuming: bool)
    requires Grounded(w, st, c, g, resuming)
    ensures var s := (if resuming then st else Journalled(st, c, g)).store;
            PathOf(c) in s.activations && s.activations[PathOf(c)] == g.activation
  {
    hide ActivationValid, GateValid, Loadable, Definitions, CanFinish, CanOpen, Bound;
  }

  lemma LastStage(st: State, c: Call, g: Ground, resuming: bool)
    requires Finish(st, c, g, resuming).ok && g.definition.task != g.activation.task
    requires PathOf(c) in st.store.activations && st.store.activations[PathOf(c)] == g.activation
    ensures var taken := TakenFor(st, c, g, resuming);
            Prepared(Stage(st, c, g, taken, 4), c, g) && Completed(Stage(st, c, g, taken, 5), c, g)
  {
    hide Finish, TakenFor, Taken, Bound, CanRebind, Rebind, Attach;
    FinishFacts(st, c, g, resuming);
    RebindFacts(TakenFor(st, c, g, resuming), c.session, g.definition.task, g.activation.task);
    TasksAtStage(st, c, g, resuming, 4);
  }

  /** A call that succeeds has switched everything. */
  lemma SuccessCompletes(w: World, st: State, c: Call) returns (g: Ground)
    requires AdvancePlan(w, st, c).ok
    ensures Completed(ApplyAll(st, AdvancePlan(w, st, c).steps), c, g)
  {
    hide Grounded, Finish, Stage, TakenFor, CanRebind, AdvancePlan, Apply, Completed;
    var resuming;
    g, resuming := GroundOf(w, st, c);
    var n := CutAdvance(w, st, c, g, resuming, |AdvancePlan(w, st, c).steps| + 1);
    LateStages(w, st, c, g, resuming);
  }

  lemma {:induction false} FlattenMember(parts: seq<seq<Step>>, x: Step)
    requires x in Flatten(parts)
    ensures exists i | 0 <= i < |parts| :: x in parts[i]
    decreases |parts|
  {
    if x !in parts[0] {
      FlattenMember(parts[1..], x);
      var i :| 0 <= i < |parts[1..]| && x in parts[1..][i];
      assert x in parts[i + 1];
    }
  }

  predicate Opens(x: Step) {
    x.MoveTask? && x.status == "in_progress"
  }

  /** A call that is going to fail opens no task. */
  lemma FailureOpensNothing(st: State, c: Call, g: Ground, resuming: bool, x: Step)
    requires !Finish(st, c, g, resuming).ok && x in Finish(st, c, g, resuming).steps
    ensures !Opens(x)
  {
    hide Taken, CanRebind, Rebind, CanMove, CanFinish, CanOpen, IsActive, Flatten;
    if Admits(st, c, g) && Taken(st, c, resuming).Some?
       && CanRebind(Taken(st, c, resuming).value, c.session, g.definition.task, g.activation.task) {
      FailedIsParts(st, c, g, resuming);
      FlattenMember(FailedParts(st, c, g, resuming), x);
      var i :| 0 <= i < |FailedParts(st, c, g, resuming)| && x in FailedParts(st, c, g, resuming)[i];
      FailedPartsOpenNothing(st, c, g, resuming, i, x);
    }
  }

  function FailedParts(st: State, c: Call, g: Ground, resuming: bool): (parts: seq<seq<Step>>)
    requires Admits(st, c, g) && Taken(st, c, resuming).Some?
    requires CanRebind(Taken(st, c, resuming).value, c.session, g.definition.task, g.activation.task)
  {
    hide CanRebind, Rebind, Attach, Bound, IsActive, Taken;
    var (last, next) := (g.definition.task, g.activation.task);
    var taken := Taken(st, c, resuming).value;
    var attach := if taken == SessionsOf(st, c.requirement) then [] else [WriteSessions(c.requirement, taken)];
    var switch := if st.store.meta[c.requirement].task == Some(last) then [SwitchTask(c.requirement, next)] else [];
    var rebind := [WriteSessions(c.requirement, Rebind(taken, c.session, last, next))];
    if !CanMove(st, last, "done") then [attach, switch, rebind]
    else [attach, switch, rebind, MoveIfNeeded(st, last, "done")]
  }

  lemma FailedIsParts(st: State, c: Call, g: Ground, resuming: bool)
    requires Admits(st, c, g) && Taken(st, c, resuming).Some?
    requires CanRebind(Taken(st, c, resuming).value, c.session, g.definition.task, g.activation.task)
    ensures !Finish(st, c, g, resuming).ok ==>
              Finish(st, c, g, resuming).steps == Flatten(FailedParts(st, c, g, resuming))
  {
    hide Admits, CanRebind, Rebind, Taken, Flatten, MoveIfNeeded, CanMove, SessionsOf;
  }

  lemma FailedPartsOpenNothing(st: State, c: Call, g: Ground, resuming: bool, i: nat, x: Step)
    requires Admits(st, c, g) && Taken(st, c, resuming).Some?
    requires CanRebind(Taken(st, c, resuming).value, c.session, g.definition.task, g.activation.task)
    requires i < |FailedParts(st, c, g, resuming)| && x in FailedParts(st, c, g, resuming)[i]
    ensures !Opens(x) && !x.WriteActivation?
  {
    hide Admits, CanRebind, Rebind, Taken, CanMove, SessionsOf;
  }

  lemma FailedCall(w: World, st: State, c: Call, x: Step)
    requires !AdvancePlan(w, st, c).ok && x in AdvancePlan(w, st, c).steps
    ensures !Opens(x)
  {
    hide GateValid, ActivationValid, Definitions, Loadable, Finish, CanFinish, CanOpen, Bound;
    var resuming := PathOf(c) in st.store.activations;
    if !Blank(c.session) && !Blank(c.agent) && c.completed >= 0
       && (if resuming then Resumable(w, st.store, c) else Startable(w, st, c)) {
      var g := if resuming then ResumeGround(w, st.store, c) else StartGround(w, st.store, c);
      if x in Finish(st, c, g, resuming).steps { FailureOpensNothing(st, c, g, resuming, x); }
    }
  }

  lemma OpeningPart(w: World, st: State, c: Call, g: Ground, resuming: bool, i: nat)
    requires Grounded(w, st, c, g, resuming) && Finish(st, c, g, resuming).ok
    requires i < |AdvancePlan(w, st, c).steps| && Opens(AdvancePlan(w, st, c).steps[i])
    ensures var steps := AdvancePlan(w, st, c).steps;
            var base := if resuming then st else Journalled(st, c, g);
            var taken := TakenFor(st, c, g, resuming);
            && steps[i] == MoveTask(g.activation.task, "in_progress") && i == |steps| - 1
            && ApplyAll(st, steps[..i]) == Stage(base, c, g, taken, 4) && ApplyAll(st, steps) == Stage(base, c, g, taken, 5)
  {
    hide Grounded, Finish, Stage, TakenFor, CanRebind, Apply, Flatten, AdvancePlan;
    TasksDiffer(w, st, c, g, resuming);
    PlanFromGround(w, st, c, g, resuming);
    var steps := AdvancePlan(w, st, c).steps;
    var n := CutAdvance(w, st, c, g, resuming, i);
    OpeningIsFifth(st, c, g, resuming, n, steps[i]);
    var whole := CutAdvance(w, st, c, g, resuming, |steps|);
  }

  lemma OpeningIsFifth(st: State, c: Call, g: Ground, resuming: bool, n: nat, x: Step)
    requires Finish(st, c, g, resuming).ok && n < 5 && Parts(st, c, g, resuming)[n] == [x] && Opens(x)
    ensures n == 4 && x == MoveTask(g.activation.task, "in_progress")
  {
    hide Finish, CanRebind, Rebind, TakenFor;
    var parts := Parts(st, c, g, resuming);
    assert x in parts[n];
  }

  /** Whatever a call does, the step that opens the next task comes only where
      the activation is on file, the requirement's current task and the session
      are switched and the finished task is done; and it is the last step. */
  lemma NextOpensLast(w: World, st: State, c: Call, i: nat) returns (g: Ground)
    requires i < |AdvancePlan(w, st, c).steps| && Opens(AdvancePlan(w, st, c).steps[i])
    ensures var plan := AdvancePlan(w, st, c);
            && plan.steps[i] == MoveTask(g.activation.task, "in_progress")
            && plan.ok && i == |plan.steps| - 1
            && Prepared(ApplyAll(st, plan.steps[..i]), c, g) && Completed(ApplyAll(st, plan.steps), c, g)
  {
    hide Grounded, Finish, Stage, TakenFor, CanRebind, Apply, Completed, Prepared, Flatten, AdvancePlan;
    var plan := AdvancePlan(w, st, c);
    if !plan.ok { FailedCall(w, st, c, plan.steps[i]); }
    var resuming;
    g, resuming := GroundOf(w, st, c);
    TasksDiffer(w, st, c, g, resuming);
    OpeningPart(w, st, c, g, resuming, i);
    LateStages(w, st, c, g, resuming);
  }
}
