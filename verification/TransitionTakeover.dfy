/** A transition once its activation is on file, finished by whoever comes: any
    sessions call, in any worlds, each call stopped anywhere and the sessions
    changed by others in between. */
module TransitionTakeover {
  import opened Utf8
  import opened Strings
  import opened GateRecords
  import opened GateChain
  import opened GateRuns
  import opened GateFrames
  import opened Transition
  import opened TransitionCrash
  import opened TransitionTheorems

  // ----- how far a transition is -----

  function StoreAt(s: Store, r: string, g: Ground, n: int): Store {
    if n >= 2 then Switched(s, r, g.activation.task) else s
  }

  function TasksAt(tasks: map<string, Task>, g: Ground, n: int): map<string, Task> {
    var finished := if n >= 4 then SetStatus(tasks, g.definition.task, "done") else tasks;
    if n >= 5 then SetStatus(finished, g.activation.task, "in_progress") else finished
  }

  /** The files and tasks are as after the first n parts of the transition,
      whatever the sessions are. */
  predicate Along(base: State, r: string, g: Ground, n: int, st: State) {
    st.store == StoreAt(base.store, r, g, n) && st.tasks == TasksAt(base.tasks, g, n)
  }

  lemma StageIsAlong(base: State, c: Call, g: Ground, taken: seq<Session>, n: int)
    requires CanRebind(taken, c.session, g.definition.task, g.activation.task)
    ensures Along(base, c.requirement, g, n, Stage(base, c, g, taken, n))
  {
    hide CanRebind, Rebind, SetStatus, Switched;
  }

  /** What the tasks and the requirement must be like for the transition to be
      finished by someone. */
  predicate Ready(st: State, r: string, g: Ground) {
    var (last, next) := (g.definition.task, g.activation.task);
    && last != next && g.definition.next == Some(next)
    && CanFinish(st, last) && CanOpen(st, next) && CanMove(st, last, "done") && CanMove(st, next, "in_progress")
    && r in st.store.meta && (st.store.meta[r].task == Some(last) || st.store.meta[r].task == Some(next))
  }

  lemma FinishIsReady(st: State, c: Call, g: Ground, resuming: bool)
    requires Finish(st, c, g, resuming).ok && g.definition.task != g.activation.task
    ensures Ready(st, c.requirement, g)
  {
    hide CanRebind, Rebind, Attach, Bound, IsActive, CanFinish, CanOpen, CanMove, Taken, SessionsOf;
  }

  lemma ReadyAlong(base: State, r: string, g: Ground, n: int, st: State)
    requires Ready(base, r, g) && Along(base, r, g, n, st)
    ensures Ready(st, r, g)
  {
  }

  lemma AlongFurther(base: State, r: string, g: Ground, n: int, st: State, m: int, st': State)
    requires Ready(base, r, g) && Along(base, r, g, n, st) && Along(st, r, g, m, st')
    ensures Along(base, r, g, if n < m then m else n, st')
  {
    hide CanFinish, CanOpen;
  }

  // ----- who may finish it -----

  /** The session that opened the transition is this one or at work no more, and
      this one holds one of the two tasks, or none and can be attached. */
  predicate Welcome(st: State, c: Call, g: Ground) {
    var ss := SessionsOf(st, c.requirement);
    var bound := Bound(ss, c.session);
    && (g.activation.session == c.session || !IsActive(ss, g.activation.session))
    && c.requirement in st.store.meta && st.store.meta[c.requirement].task.Some?
    && if bound == [] then Attach(st, c.requirement, c.session, st.store.meta[c.requirement].task.value).Some?
       else g.definition.task in bound || g.activation.task in bound
  }

  lemma WelcomeFinishes(st: State, c: Call, g: Ground)
    requires Ready(st, c.requirement, g)
    ensures Finish(st, c, g, true).ok <==> Welcome(st, c, g)
    ensures !Finish(st, c, g, true).ok ==> forall x | x in Finish(st, c, g, true).steps :: x.WriteSessions?
  {
    hide Rebind, Attach, IsActive, CanFinish, CanOpen, CanMove, Bound;
    var ss := SessionsOf(st, c.requirement);
    BoundIsFound(ss, c.session);
    var taken := Taken(st, c, true);
    if Bound(ss, c.session) == [] && taken.Some? {
      AttachFacts(st, c.requirement, c.session, st.store.meta[c.requirement].task.value);
    }
  }

  lemma BoundIsFound(ss: seq<Session>, id: string)
    ensures Bound(ss, id) != [] ==> Find(ss, id, true) < |ss|
  {
  }

  lemma {:induction false} SessionsOnly(st: State, steps: seq<Step>)
    requires forall x | x in steps :: x.WriteSessions?
    ensures ApplyAll(st, steps).store == st.store && ApplyAll(st, steps).tasks == st.tasks
    decreases |steps|
  {
    if steps != [] {
      assert steps[0] in steps;
      SessionsOnly(Apply(st, steps[0]), steps[1..]);
    }
  }

  // ----- one call -----

  /** The sessions as others left them, then a call cut after `steps` steps. */
  datatype Handover = Handover(sessions: map<string, seq<Session>>, world: World, call: Call, steps: nat)

  /** Of the same transition, by any session of any agent, at any HEAD. */
  predicate OfTransition(c: Commits, requirement: string, completed: int, h: Handover) {
    h.call.requirement == requirement && h.call.completed == completed && CommitsGrow(c, h.world.commits)
  }

  /** The files tell the ground of the transition. */
  predicate Grounds(c: Commits, s: Store, requirement: string, completed: int, g: Ground) {
    && completed >= 0
    && (requirement, completed + 1) in s.activations && s.activations[(requirement, completed + 1)] == g.activation
    && (requirement, completed) in s.gates
    && var commit := s.gates[(requirement, completed)].commit;
       Loadable(c, commit, (requirement, completed)) && DefinitionAt(c, commit, requirement, completed) == g.definition
  }

  lemma GroundsCall(c: Commits, s: Store, g: Ground, h: Handover, requirement: string, completed: int)
    requires Grounds(c, s, requirement, completed, g) && OfTransition(c, requirement, completed, h)
    requires Resumable(h.world, s, h.call)
    ensures PathOf(h.call) in s.activations && ResumeGround(h.world, s, h.call) == g
  {
    hide ActivationValid, Loadable, Definitions;
    InCommits(c, s.gates[(requirement, completed)].commit, (requirement, completed));
  }

  predicate Accepted(st: State, g: Ground, h: Handover) {
    !Blank(h.call.session) && !Blank(h.call.agent) && Resumable(h.world, st.store, h.call) && Welcome(st, h.call, g)
  }

  /** A call of the transition is accepted exactly when its journal is and its
      session is welcome, and moves only forward. */
  lemma CallGoesOn(c: Commits, st: State, g: Ground, h: Handover, requirement: string, completed: int) returns (m: nat)
    requires Ready(st, requirement, g) && Grounds(c, st.store, requirement, completed, g)
    requires OfTransition(c, requirement, completed, h)
    ensures var plan := AdvancePlan(h.world, st, h.call);
            && m <= 5 && Along(st, requirement, g, m, ApplyAll(st, Prefix(plan.steps, h.steps)))
            && (plan.ok <==> Accepted(st, g, h)) && (plan.ok && h.steps >= |plan.steps| ==> m == 5)
  {
    hide Ready, Along, Resumable, Startable, Finish, Welcome, Apply, TakenFor, Stage, Loadable;
    var plan := AdvancePlan(h.world, st, h.call);
    m := 0;
    AlongItself(st, requirement, g);
    if !Blank(h.call.session) && !Blank(h.call.agent) && Resumable(h.world, st.store, h.call) {
      GroundsCall(c, st.store, g, h, requirement, completed);
      WelcomeFinishes(st, h.call, g);
      if plan.ok {
        TasksApart(st, requirement, g);
        m := CutFinish(st, h.call, g, true, h.steps);
        StageIsAlong(st, h.call, g, TakenFor(st, h.call, g, true), m);
      } else {
        assert forall x | x in Prefix(plan.steps, h.steps) :: x in plan.steps;
        SessionsOnly(st, Prefix(plan.steps, h.steps));
        SessionsAside(st, requirement, g, ApplyAll(st, Prefix(plan.steps, h.steps)));
      }
    } else {
      assert Prefix(REFUSED.steps, h.steps) == [];
    }
  }

  lemma AlongItself(st: State, r: string, g: Ground)
    ensures Along(st, r, g, 0, st)
  {
  }

  lemma SessionsAside(st: State, r: string, g: Ground, st': State)
    requires st'.store == st.store && st'.tasks == st.tasks
    ensures Along(st, r, g, 0, st')
  {
  }

  lemma TasksApart(st: State, r: string, g: Ground)
    requires Ready(st, r, g)
    ensures g.definition.task != g.activation.task
  {
  }

  lemma GroundsAlong(c: Commits, base: State, requirement: string, completed: int, g: Ground, n: int, st: State)
    requires Grounds(c, base.store, requirement, completed, g) && Along(base, requirement, g, n, st)
    ensures Grounds(c, st.store, requirement, completed, g)
  {
    hide Loadable, TasksAt;
  }

  // ----- any number of calls -----

  ghost function AfterHandovers(st: State, hs: seq<Handover>): State
    decreases |hs|
  {
    if hs == [] then st
    else
      var met := st.(sessions := hs[0].sessions);
      AfterHandovers(ApplyAll(met, Prefix(AdvancePlan(hs[0].world, met, hs[0].call).steps, hs[0].steps)), hs[1..])
  }

  lemma {:induction false} HandoversGoOn(c: Commits, base: State, g: Ground, n: nat, st: State, hs: seq<Handover>,
                                         requirement: string, completed: int) returns (n': nat)
    requires n <= 5 && Ready(base, requirement, g) && Grounds(c, base.store, requirement, completed, g)
    requires Along(base, requirement, g, n, st) && forall h | h in hs :: OfTransition(c, requirement, completed, h)
    ensures n' <= 5 && Along(base, requirement, g, n', AfterHandovers(st, hs))
    decreases |hs|
  {
    hide Ready, Along, Grounds, AdvancePlan, ApplyAll, OfTransition, Accepted;
    if hs == [] {
      n' := n;
    } else {
      var h := hs[0];
      assert h in hs && forall x | x in hs[1..] :: x in hs;
      var met := st.(sessions := h.sessions);
      MeetsAlong(base, requirement, g, n, st, h.sessions);
      ReadyAlong(base, requirement, g, n, met);
      GroundsAlong(c, base, requirement, completed, g, n, met);
      var m := CallGoesOn(c, met, g, h, requirement, completed);
      var next := ApplyAll(met, Prefix(AdvancePlan(h.world, met, h.call).steps, h.steps));
      AlongFurther(base, requirement, g, n, met, m, next);
      n' := HandoversGoOn(c, base, g, if n < m then m else n, next, hs[1..], requirement, completed);
    }
  }

  lemma MeetsAlong(base: State, r: string, g: Ground, n: int, st: State, sessions: map<string, seq<Session>>)
    requires Along(base, r, g, n, st)
    ensures Along(base, r, g, n, st.(sessions := sessions))
  {
    hide StoreAt, TasksAt;
  }

  /** The files a transition leaves whenever its activation is on file. */
  lemma CutIsAlong(w: World, st: State, c: Call, k: nat) returns (base: State, g: Ground, n: nat)
    requires Sound(st.store) && AdvancePlan(w, st, c).ok && (k > 0 || PathOf(c) in st.store.activations)
    ensures n <= 5 && Ready(base, c.requirement, g) && Grounds(w.commits, base.store, c.requirement, c.completed, g)
    ensures Along(base, c.requirement, g, n, ApplyAll(st, Prefix(AdvancePlan(w, st, c).steps, k)))
    ensures Along(base, c.requirement, g, 5, ApplyAll(st, AdvancePlan(w, st, c).steps))
    ensures var resuming := PathOf(c) in st.store.activations;
            Grounded(w, st, c, g, resuming) && base == if resuming then st else Journalled(st, c, g)
  {
    hide Sound, Finish, Stage, TakenFor, AdvancePlan, Apply, Along, Ready, Grounded, CanRebind;
    var resuming;
    g, resuming := GroundOf(w, st, c);
    base := if resuming then st else Journalled(st, c, g);
    TasksDiffer(w, st, c, g, resuming);
    FinishIgnoresActivation(st, c, g);
    FinishIsReady(base, c, g, resuming);
    n := CutAdvance(w, st, c, g, resuming, k);
    StageIsAlong(base, c, g, TakenFor(st, c, g, resuming), n);
    var whole := CutAdvance(w, st, c, g, resuming, |AdvancePlan(w, st, c).steps| + 1);
    StageIsAlong(base, c, g, TakenFor(st, c, g, resuming), whole);
    OnFile(w, st, c, g, resuming);
    BaseGrounds(w, st, c, g, resuming);
  }

  lemma BaseGrounds(w: World, st: State, c: Call, g: Ground, resuming: bool)
    requires Sound(st.store) && Grounded(w, st, c, g, resuming)
    ensures Grounds(w.commits, (if resuming then st else Journalled(st, c, g)).store, c.requirement, c.completed, g)
  {
    hide ActivationValid, Loadable, Definitions, Sound, Resumable, Startable;
    GroundAtHead(w, st, c, g, resuming);
    OnFile(w, st, c, g, resuming);
  }

  /** A transition stopped after any of its steps once its activation is on file,
      then called any number of times by any sessions, at any HEAD, each call
      stopped anywhere and the sessions changed by others before each: the next
      call that is not stopped is accepted exactly when the journal is valid at
      its HEAD and its session is welcome, and then leaves the workspace files
      and the tasks as the first call would have. The journal is valid at every
      later HEAD that keeps the definitions and plans of the finished phases. */
  lemma TakenOver(w: World, st: State, c: Call, k: nat, hs: seq<Handover>, last: Handover) returns (g: Ground)
    requires Sound(st.store) && AdvancePlan(w, st, c).ok && (k > 0 || PathOf(c) in st.store.activations)
    requires OfTransition(w.commits, c.requirement, c.completed, last)
    requires forall h | h in hs :: OfTransition(w.commits, c.requirement, c.completed, h)
    ensures var whole := ApplyAll(st, AdvancePlan(w, st, c).steps);
            var crashed := AfterHandovers(ApplyAll(st, Prefix(AdvancePlan(w, st, c).steps, k)), hs).(sessions := last.sessions);
            var plan := AdvancePlan(last.world, crashed, last.call);
            var end := ApplyAll(crashed, plan.steps);
            && PathOf(c) in whole.store.activations && whole.store.activations[PathOf(c)] == g.activation
            && Grounds(w.commits, crashed.store, c.requirement, c.completed, g) && Ready(crashed, c.requirement, g)
            && (plan.ok <==> Accepted(crashed, g, last))
            && (plan.ok ==> end.store == whole.store && end.tasks == whole.tasks)
            && (Follows(w, last.world, c) ==> Resumable(last.world, crashed.store, last.call))
  {
    hide Sound, AdvancePlan, Apply, Along, Ready, Grounds, Accepted, Follows, OfTransition, Resumable, Grounded;
    var base, n;
    base, g, n := CutIsAlong(w, st, c, k);
    var cut := ApplyAll(st, Prefix(AdvancePlan(w, st, c).steps, k));
    n := HandoversGoOn(w.commits, base, g, n, cut, hs, c.requirement, c.completed);
    var crashed := AfterHandovers(cut, hs).(sessions := last.sessions);
    MeetsAlong(base, c.requirement, g, n, AfterHandovers(cut, hs), last.sessions);
    ReadyAlong(base, c.requirement, g, n, crashed);
    GroundsAlong(w.commits, base, c.requirement, c.completed, g, n, crashed);
    var plan := AdvancePlan(last.world, crashed, last.call);
    var uncut := last.(steps := |plan.steps|);
    UncutHandover(w.commits, crashed, g, last, uncut, c.requirement, c.completed);
    var m := CallGoesOn(w.commits, crashed, g, uncut, c.requirement, c.completed);
    if plan.ok { AlongFurther(base, c.requirement, g, n, crashed, 5, ApplyAll(crashed, plan.steps)); }
    SameFiles(base, c.requirement, g, ApplyAll(crashed, plan.steps), ApplyAll(st, AdvancePlan(w, st, c).steps));
    WholeOnFile(base, w.commits, c, g, ApplyAll(st, AdvancePlan(w, st, c).steps));
    if Follows(w, last.world, c) { ResumableLater(w, st, c, g, base, n, crashed, last); }
  }

  lemma UncutHandover(c: Commits, st: State, g: Ground, h: Handover, h': Handover, requirement: string, completed: int)
    requires Ready(st, requirement, g) && OfTransition(c, requirement, completed, h) && h' == h.(steps := h'.steps)
    ensures OfTransition(c, requirement, completed, h') && (Accepted(st, g, h') <==> Accepted(st, g, h))
    ensures h.call.requirement == requirement && h.call.completed == completed
  {
    hide Ready, Resumable, Welcome;
  }

  lemma SameFiles(base: State, r: string, g: Ground, st: State, st': State)
    requires Along(base, r, g, 5, st')
    ensures Along(base, r, g, 5, st) ==> st.store == st'.store && st.tasks == st'.tasks
  {
    hide StoreAt, TasksAt;
  }

  lemma WholeOnFile(base: State, commits: Commits, c: Call, g: Ground, st: State)
    requires Grounds(commits, base.store, c.requirement, c.completed, g) && Along(base, c.requirement, g, 5, st)
    ensures PathOf(c) in st.store.activations && st.store.activations[PathOf(c)] == g.activation
  {
    hide TasksAt, Loadable;
  }

  lemma ResumableLater(w: World, st: State, c: Call, g: Ground, base: State, n: nat, crashed: State, h: Handover)
    requires Sound(st.store) && Grounded(w, st, c, g, PathOf(c) in st.store.activations) && Follows(w, h.world, c)
    requires base == if PathOf(c) in st.store.activations then st else Journalled(st, c, g)
    requires Along(base, c.requirement, g, n, crashed) && OfTransition(w.commits, c.requirement, c.completed, h)
    ensures Resumable(h.world, crashed.store, h.call)
  {
    hide Sound, Follows, Grounded, TasksAt, Resumable;
    var resuming := PathOf(c) in st.store.activations;
    OnFile(w, st, c, g, resuming);
    assert SameBelow(st.store, crashed.store, c.requirement, c.completed + 1);
    GroundedLater(w, h.world, st, c, g, resuming, crashed);
    assert Resumable(h.world, crashed.store, c) by { GroundedResumes(h.world, crashed, c, g); }
    SameCallResumes(h.world, crashed.store, c, h.call);
  }

  lemma GroundedResumes(w: World, st: State, c: Call, g: Ground)
    requires Grounded(w, st, c, g, true)
    ensures Resumable(w, st.store, c)
  {
    hide Resumable;
  }

  lemma SameCallResumes(w: World, s: Store, c: Call, c': Call)
    requires Resumable(w, s, c) && c'.requirement == c.requirement && c'.completed == c.completed
    ensures Resumable(w, s, c')
  {
    hide ActivationValid, Loadable, Definitions;
  }
}
