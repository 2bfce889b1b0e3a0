/** When advance_next is accepted, and what it leaves, said of the files, the
    tasks and the sessions alone. */
module TransitionAcceptance {
  import opened Utf8
  import opened Strings
  import opened GateRecords
  import opened GateChain
  import opened Transition
  import opened TransitionCrash
  import TransitionTheorems
  import TransitionRuns
  import GateMeaning
  import GateOps
  import GateAcceptance

  // ----- the tasks and the session -----

  predicate MayClose(tasks: map<string, Task>, last: string) {
    last in tasks && (tasks[last].status == "in_progress" || tasks[last].status == "in_review" || tasks[last].status == "done")
  }

  predicate MayOpen(tasks: map<string, Task>, next: string) {
    next in tasks && (tasks[next].status == "backlog" || tasks[next].status == "todo" || tasks[next].status == "blocked"
                      || tasks[next].status == "in_progress")
  }

  /** A task that has to be moved has a version to compare. */
  predicate Versioned(tasks: map<string, Task>, last: string, next: string) {
    && last in tasks && next in tasks
    && (tasks[last].status == "done" || tasks[last].version.Some?)
    && (tasks[next].status == "in_progress" || tasks[next].version.Some?)
  }

  /** The requirement's current task is one of the two. */
  predicate CurrentIs(st: State, r: string, last: string, next: string) {
    r in st.store.meta && (st.store.meta[r].task == Some(last) || st.store.meta[r].task == Some(next))
  }

  /** The first entry of a session that is at work. */
  predicate AtWork(ss: seq<Session>, id: string, i: int) {
    0 <= i < |ss| && ss[i].id == id && ss[i].active && forall j | 0 <= j < i :: !(ss[j].id == id && ss[j].active)
  }

  ghost predicate HoldsOne(ss: seq<Session>, id: string, last: string, next: string) {
    exists i :: AtWork(ss, id, i) && (last in ss[i].tasks || next in ss[i].tasks)
  }

  function Listed(st: State, r: string): seq<Session> {
    if r in st.sessions then st.sessions[r] else []
  }

  lemma FoundAtWork(ss: seq<Session>, id: string)
    ensures forall i :: AtWork(ss, id, i) <==> i == Find(ss, id, true) < |ss|
  {
    forall i | AtWork(ss, id, i) ensures i == Find(ss, id, true) { FindIs(ss, id, true, i); }
  }

  lemma HoldsIs(ss: seq<Session>, id: string, last: string, next: string)
    ensures HoldsOne(ss, id, last, next) <==> CanRebind(ss, id, last, next)
    ensures HoldsOne(ss, id, last, next) <==> last in Bound(ss, id) || next in Bound(ss, id)
  {
    FoundAtWork(ss, id);
    if CanRebind(ss, id, last, next) { assert AtWork(ss, id, Find(ss, id, true)); }
  }

  // ----- what a transition leaves -----

  /** The session's entry holds the next task and not the last one, keeps the
      others once each, and no other entry has changed. */
  ghost predicate Rebound(ss: seq<Session>, ss': seq<Session>, id: string, last: string, next: string) {
    exists i ::
      && AtWork(ss, id, i) && |ss'| == |ss| && (forall j | 0 <= j < |ss| && j != i :: ss'[j] == ss[j])
      && ss'[i].id == id && ss'[i].active && Unique(ss'[i].tasks)
      && forall t :: t in ss'[i].tasks <==> t == next || (t in ss[i].tasks && t != last)
  }

  lemma RebindRebinds(ss: seq<Session>, id: string, last: string, next: string)
    requires CanRebind(ss, id, last, next) && last != next
    ensures Rebound(ss, Rebind(ss, id, last, next), id, last, next)
  {
    FoundAtWork(ss, id);
    var i := Find(ss, id, true);
    assert AtWork(ss, id, i);
    var ss' := Rebind(ss, id, last, next);
    assert ss'[i].tasks == Replacement(ss[i].tasks, last, next);
  }

  /** With tasks told apart, and the last one among them: it goes, the others stay
      as they are, and the next one comes at the end. */
  lemma ReplacementIs(before: seq<string>, after: seq<string>, last: string, next: string)
    requires Unique(before + [last] + after) && next !in before + [last] + after
    ensures Replacement(before + [last] + after, last, next) == before + after + [next]
  {
    var tasks := before + [last] + after;
    DedupUnique(tasks);
    assert tasks[|before|] == last;
    forall k | 0 <= k < |before| ensures before[k] != last { assert tasks[k] == before[k]; }
    forall k | 0 <= k < |after| ensures after[k] != last { assert tasks[|before| + 1 + k] == after[k]; }
    WithoutTail(before + [last], after, last);
    assert (before + [last])[..|before|] == before;
  }

  lemma {:induction false} WithoutTail(s: seq<string>, after: seq<string>, x: string)
    requires x !in after
    ensures Without(s + after, x) == Without(s, x) + after
    decreases |after|
  {
    if after == [] {
      assert s + after == s && Without(s, x) + [] == Without(s, x);
    } else {
      var front, y := after[..|after| - 1], after[|after| - 1];
      WithoutTail(s, front, x);
      assert (s + after)[..|s + after| - 1] == s + front && (s + after)[|s + after| - 1] == y;
      assert Without(s, x) + front + [y] == Without(s, x) + after by { assert front + [y] == after; }
    }
  }

  /** A task is moved with the next version, or is where it belongs already. */
  function AfterMove(t: Task, status: string): Task {
    if t.status == status || t.version.None? then t else Task(status, Some(t.version.value + 1))
  }

  /** The whole state after a transition: the activation is on file, the next task
      is the requirement's current one, the session is rebound in the list it was
      found in, the last task is done and the next one in progress; nothing else
      has changed. */
  ghost predicate Leaves(st: State, c: Call, a: Activation, last: string, next: string, taken: seq<Session>, st': State) {
    && c.requirement in st.store.meta
    && st'.store == st.store.(activations := st.store.activations[(c.requirement, c.completed + 1) := a],
                              meta := st.store.meta[c.requirement := st.store.meta[c.requirement].(task := Some(next))])
    && st'.sessions.Keys == st.sessions.Keys + {c.requirement}
    && (forall r | r in st.sessions && r != c.requirement :: st'.sessions[r] == st.sessions[r])
    && Rebound(taken, st'.sessions[c.requirement], c.session, last, next)
    && st'.tasks.Keys == st.tasks.Keys
    && forall id | id in st.tasks ::
         st'.tasks[id] == if id == last then AfterMove(st.tasks[id], "done")
                          else if id == next then AfterMove(st.tasks[id], "in_progress") else st.tasks[id]
  }

  lemma StageLeaves(st: State, c: Call, g: Ground, taken: seq<Session>)
    requires CanRebind(taken, c.session, g.definition.task, g.activation.task) && g.definition.task != g.activation.task
    requires c.requirement in st.store.meta
    ensures Leaves(st, c, g.activation, g.definition.task, g.activation.task, taken,
                   Stage(TransitionTheorems.Journalled(st, c, g), c, g, taken, 5))
  {
    hide Rebind, CanRebind, Rebound;
    RebindRebinds(taken, c.session, g.definition.task, g.activation.task);
  }

  // ----- a fresh call -----

  /** A call with no activation on file begins a transition: HEAD declares the
      phase completed and one after it, the gate of the first is valid on the
      clean HEAD and not ahead of the clock, the tasks are in states to be left
      and entered, and the session works on one of them. */
  ghost predicate Begins(w: World, st: State, c: Call, ds: seq<Definition>, gate: Gate) {
    && !Blank(c.session) && !Blank(c.agent) && 0 <= c.completed < |ds| - 1
    && GateMeaning.Declares(w.commits, w.head, c.requirement, ds)
    && (c.requirement, c.completed) in st.store.gates && st.store.gates[(c.requirement, c.completed)] == gate
    && GateValid(w, st.store, gate) && gate.issuedAt <= w.now
    && MayClose(st.tasks, ds[c.completed].task) && MayOpen(st.tasks, ds[c.completed + 1].task)
    && HoldsOne(Listed(st, c.requirement), c.session, ds[c.completed].task, ds[c.completed + 1].task)
  }

  /** The activation a fresh call writes first. */
  function Opening(w: World, c: Call, gate: Gate, next: string): Activation {
    Activation(c.requirement, c.completed + 1, next, c.completed, gate.commit, OfGate(gate), c.session, w.now, c.agent, 1)
  }

  lemma OpeningValid(w: World, s: Store, c: Call, gate: Gate, ds: seq<Definition>)
    requires !Blank(c.session) && !Blank(c.agent) && 0 <= c.completed < |ds| - 1
    requires GateMeaning.Declares(w.commits, w.head, c.requirement, ds) && GateValid(w, s, gate)
    requires (c.requirement, c.completed) in s.gates && s.gates[(c.requirement, c.completed)] == gate
    ensures ActivationValid(w, s, Opening(w, c, gate, ds[c.completed + 1].task)) <==> gate.issuedAt <= w.now
  {
    hide GateValid, ActivationValid, GateMeaning.ChainStands, Blank, IsSha, IsRequirement, GateMeaning.FileDeclares, IsAncestor;
    var a := Opening(w, c, gate, ds[c.completed + 1].task);
    GateMeaning.ActivationIs(w, s, a);
    GateMeaning.CurrentStands(w, s, gate);
    OnCleanHead(w, s, gate);
    assert GateMeaning.FileDeclares(w.commits, w.head, (c.requirement, c.completed), ds[c.completed]);
    assert ds[c.completed].next == Some(a.task);
    DeclaredName(w.commits, w.head, (c.requirement, c.completed), ds[c.completed]);
  }

  lemma DeclaredName(c: Commits, revision: string, path: Path, d: Definition)
    requires GateMeaning.FileDeclares(c, revision, path, d)
    ensures IsRequirement(path.0)
  {
    hide IsRequirement, Blank;
  }

  lemma OnCleanHead(w: World, s: Store, g: Gate)
    requires GateValid(w, s, g)
    ensures IsSha(w.head) && g.commit == w.head
  {
    hide PassFacts, Declared, ReceiptsBind, ChainValid, PhaseActivated, Succeeds, NoPendingReopen, IsSha, DeclaredFor;
  }

  lemma BeginsIs(w: World, st: State, c: Call, ds: seq<Definition>, gate: Gate)
    ensures Begins(w, st, c, ds, gate)
            <==> && !Blank(c.session) && !Blank(c.agent) && c.completed >= 0 && Startable(w, st, c)
                 && Definitions(w.commits, w.head, c.requirement) == Some(ds) && gate == st.store.gates[(c.requirement, c.completed)]
    ensures Begins(w, st, c, ds, gate) ==>
              StartGround(w, st.store, c) == Ground(ds[c.completed], Opening(w, c, gate, ds[c.completed + 1].task))
              && ds[c.completed].next == Some(ds[c.completed + 1].task) && ds[c.completed].task != ds[c.completed + 1].task
  {
    hide GateValid, ActivationValid, Definitions, Bound, Blank, HoldsOne, GateMeaning.FileDeclares;
    GateMeaning.DefinitionsAre(w.commits, w.head, c.requirement, ds);
    if GateMeaning.Declares(w.commits, w.head, c.requirement, ds) && 0 <= c.completed < |ds| {
      GateMeaning.NextOf(w.commits, w.head, c.requirement, ds, c.completed);
      if c.completed + 1 < |ds| {
        HoldsIs(Listed(st, c.requirement), c.session, ds[c.completed].task, ds[c.completed + 1].task);
        if !Blank(c.session) && !Blank(c.agent) && (c.requirement, c.completed) in st.store.gates && gate == st.store.gates[(c.requirement, c.completed)] {
          if GateValid(w, st.store, gate) { OpeningValid(w, st.store, c, gate, ds); }
        }
      }
    }
  }

  /** The finishing half of a fresh call. */
  lemma FreshFinish(st: State, c: Call, g: Ground)
    requires g.definition.next == Some(g.activation.task) && g.activation.session == c.session
    requires MayClose(st.tasks, g.definition.task) && MayOpen(st.tasks, g.activation.task)
    requires HoldsOne(Listed(st, c.requirement), c.session, g.definition.task, g.activation.task)
    ensures Finish(st, c, g, false).ok
            <==> && CurrentIs(st, c.requirement, g.definition.task, g.activation.task)
                 && Versioned(st.tasks, g.definition.task, g.activation.task)
    ensures Finish(st, c, g, false).ok ==> TakenFor(st, c, g, false) == Listed(st, c.requirement)
  {
    hide Rebind, Attach, IsActive, HoldsOne;
    HoldsIs(Listed(st, c.requirement), c.session, g.definition.task, g.activation.task);
  }

  /** How a call that begins goes on: it writes the activation first; it succeeds
      exactly when the requirement's current task is one of the two and the tasks
      to be moved have versions; then it leaves everything switched. */
  ghost predicate GoesOn(w: World, st: State, c: Call, ds: seq<Definition>, gate: Gate, plan: Plan) {
    && 0 <= c.completed < |ds| - 1
    && var (last, next) := (ds[c.completed].task, ds[c.completed + 1].task);
    && plan.steps != [] && plan.steps[0] == WriteActivation((c.requirement, c.completed + 1), Opening(w, c, gate, next))
    && (plan.ok <==> CurrentIs(st, c.requirement, last, next) && Versioned(st.tasks, last, next))
    && (plan.ok ==> Leaves(st, c, Opening(w, c, gate, next), last, next, Listed(st, c.requirement), ApplyAll(st, plan.steps)))
  }

  /** A call with no activation on file does something exactly when it begins, and
      then goes on as said. */
  lemma FreshAccepted(w: World, st: State, c: Call)
    requires (c.requirement, c.completed + 1) !in st.store.activations
    ensures var plan := AdvancePlan(w, st, c);
            && (plan == REFUSED <==> forall ds, gate :: !Begins(w, st, c, ds, gate))
            && forall ds, gate | Begins(w, st, c, ds, gate) :: GoesOn(w, st, c, ds, gate, plan)
  {
    hide Startable, StartGround, Finish, Definitions, Blank, Begins, GoesOn, Apply, ApplyAll;
    var plan := AdvancePlan(w, st, c);
    forall ds, gate | Begins(w, st, c, ds, gate) ensures GoesOn(w, st, c, ds, gate, plan) && plan != REFUSED {
      FreshOf(w, st, c, ds, gate);
    }
    if forall ds, gate :: !Begins(w, st, c, ds, gate) {
      if !Blank(c.session) && !Blank(c.agent) && c.completed >= 0 && Startable(w, st, c) {
        StartableSome(w, st, c);
        BeginsIs(w, st, c, Definitions(w.commits, w.head, c.requirement).value, st.store.gates[(c.requirement, c.completed)]);
      }
    }
  }

  lemma StartableSome(w: World, st: State, c: Call)
    requires Startable(w, st, c)
    ensures Definitions(w.commits, w.head, c.requirement).Some? && (c.requirement, c.completed) in st.store.gates
  {
    hide GateValid, ActivationValid, Definitions, CanFinish, CanOpen, Bound;
  }

  lemma FreshOf(w: World, st: State, c: Call, ds: seq<Definition>, gate: Gate)
    requires (c.requirement, c.completed + 1) !in st.store.activations && Begins(w, st, c, ds, gate)
    ensures GoesOn(w, st, c, ds, gate, AdvancePlan(w, st, c)) && AdvancePlan(w, st, c) != REFUSED
  {
    hide Startable, StartGround, Finish, Leaves, Definitions, GateValid, Apply, ApplyAll, HoldsOne, Stage, TakenFor, CanRebind, GateMeaning.Declares;
    BeginsIs(w, st, c, ds, gate);
    var g := Ground(ds[c.completed], Opening(w, c, gate, ds[c.completed + 1].task));
    FreshFinish(st, c, g);
    if Finish(st, c, g, false).ok {
      TransitionTheorems.FinishIgnoresActivation(st, c, g);
      var taken := Listed(st, c.requirement);
      var base := TransitionTheorems.Journalled(st, c, g);
      var n := CutFinish(base, c, g, false, |Finish(base, c, g, false).steps|);
      WholePrefix(Finish(base, c, g, false).steps);
      FirstApplied(st, WriteActivation(PathOf(c), g.activation), Finish(st, c, g, false).steps);
      StageLeaves(st, c, g, taken);
    }
  }

  lemma WholePrefix(steps: seq<Step>)
    ensures Prefix(steps, |steps|) == steps
  {
  }

  lemma FirstApplied(st: State, step: Step, rest: seq<Step>)
    ensures ApplyAll(st, [step] + rest) == ApplyAll(Apply(st, step), rest)
  {
    hide Apply;
    assert ([step] + rest)[1..] == rest;
  }

  // ----- a call that finds the activation -----

  /** The activation on file lets a transition be finished: it opens the next phase
      on the gate, the gate's chain stands, and HEAD still declares the same two
      tasks as the gate's commit. */
  ghost predicate Resumes(w: World, st: State, c: Call, ds: seq<Definition>, d: Definition, gate: Gate, a: Activation) {
    && !Blank(c.session) && !Blank(c.agent) && 0 <= c.completed < |ds|
    && GateMeaning.IsActivation(st.store, (c.requirement, c.completed + 1), a)
    && (c.requirement, c.completed) in st.store.gates && st.store.gates[(c.requirement, c.completed)] == gate
    && GateMeaning.Opens(w, a, gate) && GateMeaning.ChainStands(w, st.store, gate)
    && GateMeaning.FileDeclares(w.commits, gate.commit, (c.requirement, c.completed), d)
    && GateMeaning.Declares(w.commits, w.head, c.requirement, ds)
    && ds[c.completed].task == d.task && ds[c.completed].next == Some(a.task)
  }

  /** At work on nothing, if at all. */
  ghost predicate Idle(ss: seq<Session>, id: string) {
    forall i | AtWork(ss, id, i) :: ss[i].tasks == []
  }

  /** Nobody else is at work on a task of the requirement, nor the session on
      another requirement. */
  ghost predicate Attachable(st: State, r: string, id: string) {
    && (forall i | 0 <= i < |Listed(st, r)| && Listed(st, r)[i].id != id :: !Listed(st, r)[i].active || Listed(st, r)[i].tasks == [])
    && (forall other | other in st.sessions && other != r ::
          forall i | 0 <= i < |st.sessions[other]| :: st.sessions[other][i].id != id || !st.sessions[other][i].active)
  }

  /** The session that opened the transition is this one, or is not at work. */
  ghost predicate OwnerGone(st: State, c: Call, a: Activation) {
    a.session == c.session || forall i | 0 <= i < |Listed(st, c.requirement)| ::
                                Listed(st, c.requirement)[i].id != a.session || !Listed(st, c.requirement)[i].active
  }

  ghost predicate SeenBefore(s: seq<string>, x: string, y: string) {
    exists p | 0 <= p < |s| :: s[p] == x && y !in s[..p + 1]
  }

  /** The members of a list, each once, in the order they are first met. */
  ghost predicate Firsts(s: seq<string>, d: seq<string>) {
    && Unique(d) && (forall x :: x in d <==> x in s)
    && forall i, j | 0 <= i < j < |d| :: SeenBefore(s, d[i], d[j])
  }

  lemma {:induction false} DedupIs(s: seq<string>)
    ensures Firsts(s, Dedup(s))
  {
    if s != [] {
      var front, d := s[..|s| - 1], Dedup(s);
      DedupIs(front);
      forall i, j | 0 <= i < j < |d| ensures SeenBefore(s, d[i], d[j]) {
        if j < |Dedup(front)| {
          assert SeenBefore(front, Dedup(front)[i], Dedup(front)[j]);
          var p :| 0 <= p < |front| && front[p] == d[i] && d[j] !in front[..p + 1];
          assert s[p] == d[i] && s[..p + 1] == front[..p + 1];
        } else {
          assert d[i] in front && d[j] !in front;
          var p :| 0 <= p < |front| && front[p] == d[i];
          assert s[p] == d[i] && s[..p + 1] == front[..p + 1];
        }
      }
    }
  }

  /** The list with the session at work on a task: its first entry has the task
      added, or there is a new one at the end. */
  ghost predicate Joined(ss: seq<Session>, ss': seq<Session>, id: string, task: string) {
    || (exists i | 0 <= i < |ss| ::
          && ss[i].id == id && (forall j | 0 <= j < i :: ss[j].id != id)
          && |ss'| == |ss| && ss' == ss[i := Session(id, true, ss'[i].tasks)] && Firsts(ss[i].tasks + [task], ss'[i].tasks))
    || ((forall i | 0 <= i < |ss| :: ss[i].id != id) && ss' == ss + [Session(id, true, [task])])
  }

  /** The list a call goes on with. */
  ghost predicate GoesOnWith(st: State, c: Call, taken: seq<Session>) {
    var ss := Listed(st, c.requirement);
    && c.requirement in st.store.meta && st.store.meta[c.requirement].task.Some?
    && if Idle(ss, c.session) then Joined(ss, taken, c.session, st.store.meta[c.requirement].task.value) else taken == ss
  }

  lemma IdleIs(ss: seq<Session>, id: string)
    ensures Idle(ss, id) <==> Bound(ss, id) == []
  {
    FoundAtWork(ss, id);
    if Find(ss, id, true) < |ss| { assert AtWork(ss, id, Find(ss, id, true)); }
  }

  lemma AttachIs(st: State, r: string, id: string, task: string)
    ensures Attachable(st, r, id) <==> Attach(st, r, id, task).Some?
    ensures Attach(st, r, id, task).Some? ==> Joined(Listed(st, r), Attach(st, r, id, task).value, id, task)
  {
    hide Firsts;
    var ss := Listed(st, r);
    var i := Find(ss, id, false);
    assert ss == SessionsOf(st, r);
    if i < |ss| { DedupIs(ss[i].tasks + [task]); }
    assert forall j | 0 <= j < |ss| :: ss[j].id == id ==> i <= j;
  }

  lemma OwnerIs(st: State, c: Call, a: Activation)
    ensures OwnerGone(st, c, a) <==> a.session == c.session || !IsActive(SessionsOf(st, c.requirement), a.session)
  {
    var ss := Listed(st, c.requirement);
    assert ss == SessionsOf(st, c.requirement);
    if IsActive(ss, a.session) {
      var i :| 0 <= i < |ss| && ss[i].id == a.session && ss[i].active;
      assert a.session != c.session ==> !OwnerGone(st, c, a);
    }
  }

  /** The finishing half of a call that finds the activation. */
  lemma ResumedFinish(st: State, c: Call, g: Ground)
    requires g.definition.next == Some(g.activation.task)
    ensures var (last, next) := (g.definition.task, g.activation.task);
            Finish(st, c, g, true).ok
            <==> && MayClose(st.tasks, last) && MayOpen(st.tasks, next) && Versioned(st.tasks, last, next)
                 && CurrentIs(st, c.requirement, last, next) && OwnerGone(st, c, g.activation)
                 && (HoldsOne(Listed(st, c.requirement), c.session, last, next)
                     || (Idle(Listed(st, c.requirement), c.session) && Attachable(st, c.requirement, c.session)))
    ensures Finish(st, c, g, true).ok ==> GoesOnWith(st, c, TakenFor(st, c, g, true))
  {
    hide Rebind, Attach, IsActive, HoldsOne, Idle, Attachable, Joined, OwnerGone, Bound, CanRebind;
    var (last, next) := (g.definition.task, g.activation.task);
    var ss := Listed(st, c.requirement);
    HoldsIs(ss, c.session, last, next);
    IdleIs(ss, c.session);
    OwnerIs(st, c, g.activation);
    if CurrentIs(st, c.requirement, last, next) {
      var current := st.store.meta[c.requirement].task.value;
      AttachIs(st, c.requirement, c.session, current);
      if Attach(st, c.requirement, c.session, current).Some? {
        AttachFacts(st, c.requirement, c.session, current);
        HoldsIs(Attach(st, c.requirement, c.session, current).value, c.session, last, next);
      }
    }
  }

  lemma ResumesIs(w: World, st: State, c: Call, ds: seq<Definition>, d: Definition, gate: Gate, a: Activation)
    ensures Resumes(w, st, c, ds, d, gate, a)
            <==> && !Blank(c.session) && !Blank(c.agent) && c.completed >= 0
                 && PathOf(c) in st.store.activations && Resumable(w, st.store, c)
                 && Definitions(w.commits, w.head, c.requirement) == Some(ds) && gate == st.store.gates[(c.requirement, c.completed)]
                 && Ground(d, a) == ResumeGround(w, st.store, c)
    ensures Resumes(w, st, c, ds, d, gate, a) ==> d.next == Some(a.task) && d.task != a.task
  {
    hide ActivationValid, Definitions, Loadable, Blank, GateMeaning.FileDeclares, GateMeaning.ChainStands, IsSha, IsRequirement, IsAncestor;
    GateMeaning.DefinitionsAre(w.commits, w.head, c.requirement, ds);
    if PathOf(c) in st.store.activations { GateMeaning.ActivationIs(w, st.store, st.store.activations[PathOf(c)]); }
    if (c.requirement, c.completed) in st.store.gates {
      var commit := st.store.gates[(c.requirement, c.completed)].commit;
      GateMeaning.FileLoads(w.commits, commit, (c.requirement, c.completed), d);
      LoadIs(w.commits, commit, (c.requirement, c.completed), d);
    }
    if Resumes(w, st, c, ds, d, gate, a) {
      NextDeclared(w.commits, gate.commit, (c.requirement, c.completed), d, a.task);
      GateMeaning.NextOf(w.commits, w.head, c.requirement, ds, c.completed);
    }
  }

  lemma LoadIs(c: Commits, revision: string, path: Path, d: Definition)
    ensures Load(c, revision, path) == Some(d) <==> Loadable(c, revision, path) && DefinitionAt(c, revision, path.0, path.1) == d
  {
  }

  lemma NextDeclared(c: Commits, revision: string, path: Path, d: Definition, task: string)
    requires GateMeaning.FileDeclares(c, revision, path, d) && GateMeaning.NextIs(c, revision, path, task)
    ensures d.next == Some(task)
  {
    hide Blank, IsRequirement;
  }

  /** Whether, and to what end, a call that resumes finishes the transition. */
  ghost predicate Resumed(st: State, c: Call, last: string, a: Activation, plan: Plan) {
    && (plan.ok <==>
          && MayClose(st.tasks, last) && MayOpen(st.tasks, a.task) && Versioned(st.tasks, last, a.task)
          && CurrentIs(st, c.requirement, last, a.task) && OwnerGone(st, c, a)
          && (HoldsOne(Listed(st, c.requirement), c.session, last, a.task)
              || (Idle(Listed(st, c.requirement), c.session) && Attachable(st, c.requirement, c.session))))
    && (plan.ok ==> exists taken :: GoesOnWith(st, c, taken) && Leaves(st, c, a, last, a.task, taken, ApplyAll(st, plan.steps)))
  }

  /** A call that finds an activation is refused unless it resumes; then it succeeds
      exactly when the tasks and the requirement are as they must be, the session
      that opened the transition is gone or this one, and this one holds one of
      the two tasks, or none and may be attached; and it leaves everything
      switched. */
  lemma ResumedAccepted(w: World, st: State, c: Call)
    requires (c.requirement, c.completed + 1) in st.store.activations
    ensures var plan := AdvancePlan(w, st, c);
            && ((forall ds, d, gate, a :: !Resumes(w, st, c, ds, d, gate, a)) ==> plan == REFUSED)
            && forall ds, d, gate, a | Resumes(w, st, c, ds, d, gate, a) :: Resumed(st, c, d.task, a, plan)
  {
    hide Resumable, ResumeGround, Finish, Definitions, Blank, Resumes, Resumed, Apply, ApplyAll;
    var plan := AdvancePlan(w, st, c);
    forall ds, d, gate, a | Resumes(w, st, c, ds, d, gate, a) ensures Resumed(st, c, d.task, a, plan) {
      ResumedOf(w, st, c, ds, d, gate, a);
    }
    if forall ds, d, gate, a :: !Resumes(w, st, c, ds, d, gate, a) {
      if !Blank(c.session) && !Blank(c.agent) && c.completed >= 0 && Resumable(w, st.store, c) {
        ResumableSome(w, st, c);
        var g := ResumeGround(w, st.store, c);
        ResumesIs(w, st, c, Definitions(w.commits, w.head, c.requirement).value, g.definition, st.store.gates[(c.requirement, c.completed)], g.activation);
      }
    }
  }

  lemma ResumableSome(w: World, st: State, c: Call)
    requires PathOf(c) in st.store.activations && Resumable(w, st.store, c)
    ensures Definitions(w.commits, w.head, c.requirement).Some? && (c.requirement, c.completed) in st.store.gates
    ensures Loadable(w.commits, st.store.gates[(c.requirement, c.completed)].commit, (c.requirement, c.completed))
  {
    hide ActivationValid, Definitions, Loadable;
  }

  lemma ResumedOf(w: World, st: State, c: Call, ds: seq<Definition>, d: Definition, gate: Gate, a: Activation)
    requires Resumes(w, st, c, ds, d, gate, a)
    ensures Resumed(st, c, d.task, a, AdvancePlan(w, st, c))
  {
    hide Resumes, Resumable, ResumeGround, Startable, Finish, Leaves, Definitions, Apply, ApplyAll, HoldsOne, Idle, Attachable, OwnerGone,
      GoesOnWith, Stage, TakenFor, CanRebind, Blank;
    ResumesIs(w, st, c, ds, d, gate, a);
    var g := Ground(d, a);
    ResumedFinish(st, c, g);
    if Finish(st, c, g, true).ok {
      var taken := TakenFor(st, c, g, true);
      var n := CutFinish(st, c, g, true, |Finish(st, c, g, true).steps|);
      WholePrefix(Finish(st, c, g, true).steps);
      assert Resumable(w, st.store, c);
      FinishesAsFiled(w, st, c, g);
      StageLeaves(st, c, g, taken);
      assert Leaves(st, c, a, d.task, a.task, taken, ApplyAll(st, Finish(st, c, g, true).steps));
    }
  }

  lemma FinishesAsFiled(w: World, st: State, c: Call, g: Ground)
    requires PathOf(c) in st.store.activations && Resumable(w, st.store, c) && g == ResumeGround(w, st.store, c)
    ensures TransitionTheorems.Journalled(st, c, g) == st
  {
    hide ActivationValid, Definitions, Loadable;
    assert st.store.activations[PathOf(c) := g.activation] == st.store.activations;
  }

  // ----- a call that is cut -----

  /** The sessions before the rebinding: as they were, or with the session put back
      on the current task. */
  ghost predicate AtMostAttached(st: State, c: Call, sessions: map<string, seq<Session>>) {
    || sessions == st.sessions
    || ((c.requirement, c.completed + 1) in st.store.activations
        && exists taken :: GoesOnWith(st, c, taken) && sessions == st.sessions[c.requirement := taken])
  }

  /** However far a call that would succeed gets, it goes in one order: the
      activation, the current task, the session, the last task, the next task.
      Whatever has changed, all that comes before it has. */
  lemma StopsInOrder(w: World, st: State, c: Call, k: nat)
    requires AdvancePlan(w, st, c).ok
    ensures var steps := AdvancePlan(w, st, c).steps;
            var (cut, end) := (ApplyAll(st, Prefix(steps, k)), ApplyAll(st, steps));
            && (cut != st ==> cut.store.activations == end.store.activations)
            && (cut.store.meta != end.store.meta ==> cut.tasks == st.tasks && AtMostAttached(st, c, cut.sessions))
            && (cut.sessions != end.sessions ==> cut.tasks == st.tasks)
            && forall id | id in st.tasks && id in cut.tasks && cut.tasks[id] != st.tasks[id]
                           && c.requirement in cut.store.meta && cut.store.meta[c.requirement].task == Some(id) :: cut == end
  {
    hide TransitionTheorems.Grounded, Finish, Stage, Apply, ApplyAll, TakenFor, Parts, AdvancePlan, CanRebind, GoesOnWith;
    var g, resuming := TransitionTheorems.GroundOf(w, st, c);
    var steps := AdvancePlan(w, st, c).steps;
    if !resuming && k == 0 {
      NothingApplied(st, steps);
    } else {
      var n := TransitionTheorems.CutAdvance(w, st, c, g, resuming, k);
      var whole := TransitionTheorems.CutAdvance(w, st, c, g, resuming, |steps| + 1);
      assert Prefix(steps, |steps| + 1) == steps;
      TransitionTheorems.TasksDiffer(w, st, c, g, resuming);
      TakenIs(w, st, c, g, resuming);
      StageInOrder(st, c, g, resuming, n);
    }
  }

  /** The list a call that would succeed goes on with. */
  lemma TakenIs(w: World, st: State, c: Call, g: Ground, resuming: bool)
    requires TransitionTheorems.Grounded(w, st, c, g, resuming) && Finish(st, c, g, resuming).ok
    ensures var taken := TakenFor(st, c, g, resuming);
            if resuming then GoesOnWith(st, c, taken) else st.sessions[c.requirement := taken] == st.sessions
    ensures resuming == ((c.requirement, c.completed + 1) in st.store.activations)
  {
    hide Resumable, Startable, Rebind, Attach, GoesOnWith;
    if resuming { ResumedFinish(st, c, g); }
  }

  lemma StageInOrder(st: State, c: Call, g: Ground, resuming: bool, n: int)
    requires Finish(st, c, g, resuming).ok && 0 <= n <= 5 && g.definition.task != g.activation.task
    requires resuming == ((c.requirement, c.completed + 1) in st.store.activations)
    requires var taken := TakenFor(st, c, g, resuming);
             if resuming then GoesOnWith(st, c, taken) else st.sessions[c.requirement := taken] == st.sessions
    ensures var base := if resuming then st else TransitionTheorems.Journalled(st, c, g);
            var (cut, end) := (Stage(base, c, g, TakenFor(st, c, g, resuming), n), Stage(base, c, g, TakenFor(st, c, g, resuming), 5));
            && cut.store.activations == end.store.activations
            && (cut.store.meta != end.store.meta ==> cut.tasks == st.tasks && AtMostAttached(st, c, cut.sessions))
            && (cut.sessions != end.sessions ==> cut.tasks == st.tasks)
            && forall id | id in st.tasks && id in cut.tasks && cut.tasks[id] != st.tasks[id]
                           && c.requirement in cut.store.meta && cut.store.meta[c.requirement].task == Some(id) :: cut == end
  {
    hide Finish, TakenFor, CanRebind, Rebind, GoesOnWith;
  }

  lemma NothingApplied(st: State, steps: seq<Step>)
    ensures ApplyAll(st, Prefix(steps, 0)) == st
  {
    hide Apply;
  }

  // ----- the other events of a run -----

  /** In a run, a gate operation that nothing stops makes of the files what it is
      accepted for, and of the sessions and tasks nothing. Others can rewrite
      sessions, tasks and receipts, and of the metadata all but a current task that
      is set. */
  lemma OtherEvents(
    w: World, st: State, op: GateOps.Op, k: nat, sessions: map<string, seq<Session>>, tasks: map<string, Task>,
    receipts: map<(string, string), Receipt>, meta: map<string, Meta>)
    ensures var end := TransitionRuns.After(st, TransitionRuns.Gates(w, op, k));
            && (end.sessions, end.tasks) == (st.sessions, st.tasks) && (k == 0 ==> end == st)
            && (k >= 5 ==> GateAcceptance.Makes(w, st.store, op, end.store))
    ensures var end := TransitionRuns.After(st, TransitionRuns.Outside(sessions, tasks, receipts, meta));
            && end == State(st.store.(receipts := receipts, meta := end.store.meta), sessions, tasks)
            && (forall r | r in st.store.meta && st.store.meta[r].task.Some? ::
                  r in end.store.meta && end.store.meta[r].task == st.store.meta[r].task)
            && (forall r | r in meta && (r in st.store.meta ==> st.store.meta[r].task.None?) ::
                  r in end.store.meta && end.store.meta[r] == meta[r])
            && forall r | r in meta :: (end.store.meta[r].status, end.store.meta[r].gated) == (meta[r].status, meta[r].gated)
  {
    hide GateAcceptance.Makes, GateOps.Leaves;
    GateAcceptance.ActMakes(st.store, GateOps.Act(w, st.store.meta, st.store.receipts, op, k));
    assert st.store.(meta := st.store.meta, receipts := st.store.receipts) == st.store;
  }
}
