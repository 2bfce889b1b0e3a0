/** A reopening in progress holds the phase: whatever else runs, and wherever it
    crashes, the candidates stay as archived until that reopening completes. */
module GatePending {
  import opened Utf8
  import opened Strings
  import opened GateRecords
  import opened GateChain
  import opened GateOps
  import opened GateRuns
  import opened GateReopen

  /** The journal is durable and unfinished: what is left at the path is what
      was archived, and nothing is gone unless the archive is on file. */
  predicate Midway(s: Store, path: Path, a: Archive) {
    && path in s.reopens && s.reopens[path] == NewJournal(a) && ReadReopen(s, path).ReadJournal?
    && CandidatesArchived(s, path, a)
    && if (path, OfArchive(a)) in s.history then s.history[(path, OfArchive(a))] == a
       else At(s.reviews, path) == a.review && At(s.gates, path) == a.gate
  }

  /** A write that cannot concern the candidates, the journal or the archives
      of this path. */
  predicate Foreign(w: Write, path: Path) {
    w.path != path || w.PutActivation?
  }

  lemma MidwayWrite(s: Store, path: Path, a: Archive, w: Write)
    requires Midway(s, path, a) && Foreign(w, path)
    ensures Midway(Apply(s, w), path, a)
  {
    hide ReadReopen;
    ReadsOnly(s, Apply(s, w), path);
  }

  lemma {:induction false} MidwayWrites(s: Store, path: Path, a: Archive, ws: seq<Write>)
    requires Midway(s, path, a) && forall w | w in ws :: Foreign(w, path)
    ensures Midway(ApplyAll(s, ws), path, a)
    decreases |ws|
  {
    hide Midway, Apply, Foreign;
    if ws != [] {
      MidwayWrite(s, path, a, ws[0]);
      MidwayWrites(Apply(s, ws[0]), path, a, ws[1..]);
    }
  }

  // ----- everything else is refused or elsewhere -----

  lemma PendingBlocks(w: World, s: Store, path: Path, a: Archive, op: Op)
    requires Midway(s, path, a) && !(op.Reopen? && op.path == path)
    ensures forall x | x in PlanOf(w, s, op).writes :: Foreign(x, path)
    ensures op.RecordReview? && op.path == path ==> PlanOf(w, s, op) == REFUSED || PlanOf(w, s, op).writes == []
    ensures op.IssueGate? && op.path == path ==> PlanOf(w, s, op) == REFUSED
  {
    hide Reviewable, GateValid, ActivationValid, ReadReopen, ReopenPlan;
    assert !NoPendingReopen(s, path) by { PendingReads(s, path, a); }
    if op.Reopen? { ReopenWritesThere(w, s, op.path, op.reason, op.session); }
  }

  lemma PendingReads(s: Store, path: Path, a: Archive)
    requires Midway(s, path, a)
    ensures ReadReopen(s, path) == ReadJournal(NewJournal(a))
  {
  }

  predicate There(ws: seq<Write>, path: Path) {
    forall x | x in ws :: x.path == path && !x.PutActivation?
  }

  lemma FinishWritesThere(s: Store, path: Path, j: Journal)
    ensures There(FinishPlan(s, path, j).writes, path)
  {
    hide CandidatesArchived;
  }

  lemma ReopenWritesThere(w: World, s: Store, path: Path, reason: string, session: string)
    ensures There(ReopenPlan(w, s, path, reason, session).writes, path)
  {
    hide Reopenable, FinishPlan, ChooseJournal;
    var chosen := ChooseJournal(w, s, path, reason, session);
    if !chosen.Deny? { FinishWritesThere(s, path, chosen.journal); }
  }

  // ----- the reopening itself -----

  lemma RemovalSteps(s: Store, path: Path, a: Archive, m: nat)
    requires Midway(s, path, a) && (path, OfArchive(a)) in s.history
    ensures var ws := [DropReview(path), DropGate(path), PutReopen(path, NewJournal(a).(pending := false))];
            var s' := ApplyAll(s, Prefix(ws, m));
            if m < 3 then Midway(s', path, a) else Finished(s', path, a)
  {
    hide Midway, Apply, ReadReopen;
    var drop, gone, done := DropReview(path), DropGate(path), PutReopen(path, NewJournal(a).(pending := false));
    var s1 := Apply(s, drop);
    var s2 := Apply(s1, gone);
    RemovalStep(s, path, a);
    RemovalStep(s1, path, a);
    RemovalStep(s2, path, a);
    var cut := Prefix([drop, gone, done], m);
    assert ApplyAll(s2, [done]) == Apply(s2, done) by { assert [done][1..] == []; }
    assert ApplyAll(s1, [gone]) == s2 by { assert [gone][1..] == []; }
    assert ApplyAll(s1, [gone, done]) == Apply(s2, done) by { assert [gone, done][1..] == [done]; }
    if m > 0 {
      assert cut[1..] == if m == 1 then [] else if m == 2 then [gone] else [gone, done];
    }
  }

  lemma RemovalStep(s: Store, path: Path, a: Archive)
    requires Midway(s, path, a) && (path, OfArchive(a)) in s.history
    ensures var s1, s2 := Apply(s, DropReview(path)), Apply(s, DropGate(path));
            && Midway(s1, path, a) && (path, OfArchive(a)) in s1.history && path !in s1.reviews
            && Midway(s2, path, a) && (path, OfArchive(a)) in s2.history && path !in s2.gates && s2.reviews == s.reviews
    ensures path !in s.reviews && path !in s.gates ==>
              Finished(Apply(s, PutReopen(path, NewJournal(a).(pending := false))), path, a)
  {
    hide ReadReopen;
    ReadsOnly(s, Apply(s, DropReview(path)), path);
    ReadsOnly(s, Apply(s, DropGate(path)), path);
  }

  lemma ArchiveStep(s: Store, path: Path, a: Archive)
    requires Midway(s, path, a)
    ensures var s1 := Apply(s, PutArchive(path, OfArchive(a), a));
            Midway(s1, path, a) && (path, OfArchive(a)) in s1.history
  {
    hide ReadReopen;
    ReadsOnly(s, Apply(s, PutArchive(path, OfArchive(a), a)), path);
  }

  lemma ReopenMidway(w: World, s: Store, path: Path, a: Archive, reason: string, session: string, m: nat)
    requires Midway(s, path, a)
    ensures var s' := ApplyAll(s, Prefix(ReopenPlan(w, s, path, reason, session).writes, m));
            Midway(s', path, a) || Finished(s', path, a)
  {
    hide Midway, Finished, FinishPlan, ReopenPlan;
    MidwayChoice(w, s, path, a, reason, session);
    var plan := ReopenPlan(w, s, path, reason, session);
    if plan.writes != [] { FinishMidway(s, path, a, m); }
  }

  lemma MidwayChoice(w: World, s: Store, path: Path, a: Archive, reason: string, session: string)
    requires Midway(s, path, a)
    ensures var plan := ReopenPlan(w, s, path, reason, session);
            plan == REFUSED || plan == FinishPlan(s, path, NewJournal(a))
  {
    hide Midway, FinishPlan, Reopenable, TaskAt, ReadReopen;
    PendingReads(s, path, a);
  }

  lemma FinishMidway(s: Store, path: Path, a: Archive, m: nat)
    requires Midway(s, path, a)
    ensures var s' := ApplyAll(s, Prefix(FinishPlan(s, path, NewJournal(a)).writes, m));
            Midway(s', path, a) || Finished(s', path, a)
  {
    hide Midway, Finished, Apply, FinishPlan;
    var last := [DropReview(path), DropGate(path), PutReopen(path, NewJournal(a).(pending := false))];
    var put := PutArchive(path, OfArchive(a), a);
    MidwayPlan(s, path, a);
    if (path, OfArchive(a)) in s.history {
      RemovalSteps(s, path, a, m);
    } else if m > 0 {
      ArchiveStep(s, path, a);
      RemovalSteps(Apply(s, put), path, a, m - 1);
      assert Prefix([put] + last, m) == [put] + Prefix(last, m - 1);
      assert ([put] + Prefix(last, m - 1))[1..] == Prefix(last, m - 1);
    }
  }

  lemma MidwayPlan(s: Store, path: Path, a: Archive)
    requires Midway(s, path, a)
    ensures var last := [DropReview(path), DropGate(path), PutReopen(path, NewJournal(a).(pending := false))];
            var writes := FinishPlan(s, path, NewJournal(a)).writes;
            && FinishPlan(s, path, NewJournal(a)).ok
            && if (path, OfArchive(a)) in s.history then writes == last else writes == [PutArchive(path, OfArchive(a), a)] + last
  {
    hide ReadReopen;
  }

  // ----- runs -----

  lemma MidwayAct(s: Store, path: Path, a: Archive, act: Act)
    requires Midway(s, path, a)
    ensures Midway(Leaves(s, act), path, a) || Finished(Leaves(s, act), path, a)
  {
    hide Midway, Finished, PlanOf, Apply, Foreign, ReopenPlan;
    var b := Before(s, act);
    assert Midway(b, path, a) by { BeforeMidway(s, path, a, act); }
    var ws := PlanOf(act.world, b, act.op).writes;
    if act.op.Reopen? && act.op.path == path {
      OpIsReopen(act.world, b, act.op);
      ReopenMidway(act.world, b, path, a, act.op.reason, act.op.session, act.steps);
    } else {
      PendingBlocks(act.world, b, path, a, act.op);
      assert forall w | w in Prefix(ws, act.steps) :: w in ws;
      MidwayWrites(b, path, a, Prefix(ws, act.steps));
    }
  }

  lemma OpIsReopen(w: World, s: Store, op: Op)
    requires op.Reopen?
    ensures PlanOf(w, s, op) == ReopenPlan(w, s, op.path, op.reason, op.session)
  {
  }

  lemma BeforeMidway(s: Store, path: Path, a: Archive, act: Act)
    requires Midway(s, path, a)
    ensures Midway(Before(s, act), path, a)
  {
    hide ReadReopen;
    ReadsOnly(s, Before(s, act), path);
  }

  /** From the moment the journal is durable, through any operations of anyone
      stopped anywhere, the candidates stay what the journal archived them as;
      the first operation to end that is the reopening completing, with both
      gone and the archive on file. */
  lemma {:induction false} PendingUntilFinished(s: Store, path: Path, a: Archive, acts: seq<Act>) returns (n: nat)
    requires Midway(s, path, a)
    ensures n <= |acts|
    ensures (Midway(Run(s, acts[..n]), path, a) && n == |acts|) || Finished(Run(s, acts[..n]), path, a)
    decreases |acts|
  {
    hide Midway, Finished, Leaves;
    if acts == [] {
      n := 0;
    } else {
      MidwayAct(s, path, a, acts[0]);
      var s1 := Leaves(s, acts[0]);
      if Finished(s1, path, a) {
        n := 1;
        assert acts[..1][1..] == [];
      } else {
        n := PendingUntilFinished(s1, path, a, acts[1..]);
        n := n + 1;
        assert acts[..n][1..] == acts[1..][..n - 1];
      }
    }
  }

  /** A reopening that opened its journal and crashed is in progress, with the
      archive of the candidates it found. */
  lemma CrashIsMidway(w: World, s: Store, path: Path, reason: string, session: string, k: nat)
    requires Opens(w, s, path, reason, session) && k > 0
    ensures var a := NewArchive(w, s, path, reason, session);
            var s' := ApplyAll(s, Prefix(ReopenPlan(w, s, path, reason, session).writes, k));
            Midway(s', path, a) || Finished(s', path, a)
  {
    hide Opens, Stage, Midway, Finished, ReopenPlan, NewArchive, Reopenable;
    var a := NewArchive(w, s, path, reason, session);
    var n := FirstCall(w, s, path, reason, session, k);
    if n == 5 {
      LastStage(s, path, a);
    } else {
      OpensFacts(w, s, path, reason, session);
      JournalAtStage(s, path, a, n);
      StageIsMidway(s, path, a, n);
    }
  }

  // ----- the reopening is finished -----

  /** A call that finds a reopening in progress is accepted exactly when it is
      admitted, gives its reason and is for the task it was opened on; and an
      accepted call completes it. */
  lemma MidwayCompletes(w: World, s: Store, path: Path, a: Archive, reason: string, session: string)
    requires Midway(s, path, a)
    ensures var plan := ReopenPlan(w, s, path, reason, session);
            && (plan.ok <==> Reopenable(w, s, path, reason, session) && Strip(reason) == a.reason && TaskAt(w, path) == a.task)
            && (plan.ok ==> Finished(ApplyAll(s, plan.writes), path, a))
  {
    hide Midway, Finished, FinishPlan, Reopenable, TaskAt, ReadReopen;
    PendingReads(s, path, a);
    MidwayFinishes(s, path, a);
  }

  lemma MidwayFinishes(s: Store, path: Path, a: Archive)
    requires Midway(s, path, a)
    ensures var plan := FinishPlan(s, path, NewJournal(a)); plan.ok && Finished(ApplyAll(s, plan.writes), path, a)
  {
    hide Midway, Finished, Apply, FinishPlan;
    var last := [DropReview(path), DropGate(path), PutReopen(path, NewJournal(a).(pending := false))];
    var put := PutArchive(path, OfArchive(a), a);
    MidwayPlan(s, path, a);
    if (path, OfArchive(a)) in s.history {
      RemovalSteps(s, path, a, 3);
    } else {
      ArchiveStep(s, path, a);
      RemovalSteps(Apply(s, put), path, a, 3);
      assert ([put] + last)[1..] == last;
    }
  }

  /** A reopening that opened its journal and crashed, then any operations of
      anyone, in any worlds, stopped anywhere: either some call has completed it
      on the way, or it is still in progress, and then the next call accepted
      completes it, wherever HEAD is by then. */
  lemma CrashedReopenFinishes(w: World, s: Store, path: Path, reason: string, session: string, k: nat, acts: seq<Act>,
                              w': World, reason': string, session': string) returns (n: nat)
    requires Opens(w, s, path, reason, session) && k > 0
    ensures n <= |acts|
    ensures var a := NewArchive(w, s, path, reason, session);
            var crashed := ApplyAll(s, Prefix(ReopenPlan(w, s, path, reason, session).writes, k));
            var later := Run(crashed, acts);
            var plan := ReopenPlan(w', later, path, reason', session');
            || Finished(Run(crashed, acts[..n]), path, a)
            || (&& (plan.ok <==> Reopenable(w', later, path, reason', session') && Strip(reason') == Strip(reason)
                                 && TaskAt(w', path) == TaskAt(w, path))
                && (plan.ok ==> Finished(ApplyAll(later, plan.writes), path, a)))
  {
    hide Opens, Midway, Finished, ReopenPlan, Reopenable, TaskAt, Run;
    var a := NewArchive(w, s, path, reason, session);
    var crashed := ApplyAll(s, Prefix(ReopenPlan(w, s, path, reason, session).writes, k));
    CrashIsMidway(w, s, path, reason, session, k);
    if Finished(crashed, path, a) {
      n := 0;
      RunsNothing(crashed, acts);
    } else {
      n := PendingUntilFinished(crashed, path, a, acts);
      if n == |acts| && !Finished(Run(crashed, acts[..n]), path, a) {
        assert acts[..n] == acts;
        MidwayCompletes(w', Run(crashed, acts), path, a, reason', session');
      }
    }
  }

  lemma RunsNothing(s: Store, acts: seq<Act>)
    ensures Run(s, acts[..0]) == s
  {
  }

  lemma OpensFacts(w: World, s: Store, path: Path, reason: string, session: string)
    requires Opens(w, s, path, reason, session)
    ensures var a := NewArchive(w, s, path, reason, session);
            && Archives(s, path, a) && a.schema == SCHEMA && a.requirement == path.0 && a.phase == path.1
            && !Blank(a.reason) && !Blank(a.reopenedBy) && !Blank(a.task)
  {
    hide PhaseActivated, Definitions, Archives, WellFiled, Pinned, NewArchive, TaskAt;
    NewArchiveArchives(w, s, path, reason, session);
    ArchiveFacts(w, s, path, reason, session);
  }

  lemma StageIsMidway(s: Store, path: Path, a: Archive, n: int)
    requires 1 <= n < 5 && Archives(s, path, a)
    requires ReadReopen(Stage(s, path, a, n), path).ReadJournal?
    ensures Midway(Stage(s, path, a, n), path, a)
  {
    hide ReadReopen;
  }
}
