/** Reopening a phase is a transaction: from any crash point a retry with the
    same reason ends where the first call would have. */
module GateReopen {
  import opened Utf8
  import opened Strings
  import opened GateRecords
  import opened GateChain
  import opened GateOps
  import opened GateFrames
  import opened GateRuns

  // ----- what a reopening leaves -----

  /** The journal is completed, both candidates are gone and the archive holds
      them. */
  predicate Finished(s: Store, path: Path, a: Archive) {
    && path in s.reopens && s.reopens[path] == NewJournal(a).(pending := false)
    && path !in s.reviews && path !in s.gates
    && (path, OfArchive(a)) in s.history && s.history[(path, OfArchive(a))] == a
  }

  /** Everything that is not about this path, the archives aside. */
  predicate ElsewhereSame(s: Store, s': Store, path: Path) {
    && s'.activations == s.activations && s'.receipts == s.receipts && s'.meta == s.meta
    && s'.gates - {path} == s.gates - {path} && s'.reviews - {path} == s.reviews - {path}
    && s'.reopens - {path} == s.reopens - {path}
  }

  // ----- the five stages -----

  /** The store after the first n of the five writes of a reopening: journal,
      archive, no review, no gate, journal completed. */
  function Stage(s: Store, path: Path, a: Archive, n: int): Store {
    s.(reopens := if n >= 1 then s.reopens[path := NewJournal(a).(pending := n < 5)] else s.reopens,
       history := if n >= 2 then s.history[(path, OfArchive(a)) := a] else s.history,
       reviews := if n >= 3 then s.reviews - {path} else s.reviews,
       gates := if n >= 4 then s.gates - {path} else s.gates)
  }

  /** The archive is of the candidates at the path, and nothing else is filed
      under its fingerprint. */
  predicate Archives(s: Store, path: Path, a: Archive) {
    && a.review == At(s.reviews, path) && a.gate == At(s.gates, path)
    && ((path, OfArchive(a)) in s.history ==> s.history[(path, OfArchive(a))] == a)
  }

  function JournalAt(a: Archive, n: int): Journal {
    NewJournal(a).(pending := n < 5)
  }

  function Later(n: int, m: int): int {
    if n < m then m else n
  }

  lemma WriteAtStage(s: Store, path: Path, a: Archive, n: int)
    requires 1 <= n <= 5
    ensures n == 1 ==> Apply(Stage(s, path, a, 1), PutArchive(path, OfArchive(a), a)) == Stage(s, path, a, 2)
    ensures n >= 2 ==> Apply(Stage(s, path, a, n), DropReview(path)) == Stage(s, path, a, Later(n, 3))
    ensures n >= 3 ==> Apply(Stage(s, path, a, n), DropGate(path)) == Stage(s, path, a, Later(n, 4))
    ensures n >= 4 ==> Apply(Stage(s, path, a, n), PutReopen(path, NewJournal(a).(pending := false))) == Stage(s, path, a, 5)
  {
  }

  /** From the second stage on, the rest of the plan cut after m writes. */
  lemma CutRemoval(s: Store, path: Path, a: Archive, n: int, m: nat) returns (n': int)
    requires 2 <= n <= 5
    ensures n <= n' <= 5 && (m >= 3 ==> n' == 5)
    ensures var ws := [DropReview(path), DropGate(path), PutReopen(path, NewJournal(a).(pending := false))];
            ApplyAll(Stage(s, path, a, n), Prefix(ws, m)) == Stage(s, path, a, n')
  {
    hide Stage, Apply;
    var ws := [DropReview(path), DropGate(path), PutReopen(path, NewJournal(a).(pending := false))];
    var n3, n4 := Later(n, 3), Later(n, 4);
    WriteAtStage(s, path, a, n);
    WriteAtStage(s, path, a, n3);
    WriteAtStage(s, path, a, n4);
    n' := if m == 0 then n else if m == 1 then n3 else if m == 2 then n4 else 5;
    var t3, t4 := Stage(s, path, a, n3), Stage(s, path, a, n4);
    assert ApplyAll(t4, [ws[2]]) == Stage(s, path, a, 5) by { assert [ws[2]][1..] == []; }
    assert ApplyAll(t3, [ws[1]]) == t4 by { assert [ws[1]][1..] == []; }
    assert ApplyAll(t3, [ws[1], ws[2]]) == Stage(s, path, a, 5) by { assert [ws[1], ws[2]][1..] == [ws[2]]; }
    var cut := Prefix(ws, m);
    if m > 0 {
      assert cut[1..] == if m == 1 then [] else if m == 2 then [ws[1]] else [ws[1], ws[2]];
    }
  }

  lemma FinishAtStage(s: Store, path: Path, a: Archive, n: int)
    requires 1 <= n <= 5 && Archives(s, path, a)
    ensures var last := [DropReview(path), DropGate(path), PutReopen(path, NewJournal(a).(pending := false))];
            var plan := FinishPlan(Stage(s, path, a, n), path, JournalAt(a, n));
            plan.ok && plan.writes == if n == 1 && (path, OfArchive(a)) !in s.history
                                      then [PutArchive(path, OfArchive(a), a)] + last else last
  {
  }

  /** A call that finds the journal of stage n ends at a later stage, and at the
      last one if it is not cut. */
  lemma CutAtStage(s: Store, path: Path, a: Archive, n: int, m: nat) returns (n': int)
    requires 1 <= n <= 5 && Archives(s, path, a)
    ensures n <= n' <= 5
    ensures var plan := FinishPlan(Stage(s, path, a, n), path, JournalAt(a, n));
            && plan.ok && (m >= |plan.writes| ==> n' == 5)
            && ApplyAll(Stage(s, path, a, n), Prefix(plan.writes, m)) == Stage(s, path, a, n')
  {
    hide Stage, Apply, FinishPlan, Archives;
    FinishAtStage(s, path, a, n);
    var last := [DropReview(path), DropGate(path), PutReopen(path, NewJournal(a).(pending := false))];
    if n >= 2 {
      n' := CutRemoval(s, path, a, n, m);
    } else if (path, OfArchive(a)) in s.history {
      assert Stage(s, path, a, 1) == Stage(s, path, a, 2) by { SameStage(s, path, a); }
      n' := CutRemoval(s, path, a, 2, m);
    } else if m == 0 {
      n' := 1;
    } else {
      WriteAtStage(s, path, a, 1);
      n' := CutRemoval(s, path, a, 2, m - 1);
      var put := PutArchive(path, OfArchive(a), a);
      assert Prefix([put] + last, m) == [put] + Prefix(last, m - 1);
      assert ([put] + Prefix(last, m - 1))[1..] == Prefix(last, m - 1);
    }
  }

  lemma SameStage(s: Store, path: Path, a: Archive)
    requires Archives(s, path, a) && (path, OfArchive(a)) in s.history
    ensures Stage(s, path, a, 1) == Stage(s, path, a, 2)
  {
  }

  // ----- a retry is allowed -----

  lemma StageIsBelow(s: Store, path: Path, a: Archive, n: int)
    ensures var t := Stage(s, path, a, n);
            SameBelow(s, t, path.0, path.1) && t.meta == s.meta && t.activations == s.activations
  {
  }

  /** A later world in which the same reopening can be asked for: HEAD may have
      moved on as long as it keeps the definitions and plans up to the phase and
      declares a whole chain. */
  ghost predicate Continues(w: World, w': World, path: Path, reason: string, reason': string, session': string) {
    && LaterWorld(w, w', path.0, path.1 + 1) && w'.inPlace && Definitions(w'.commits, w'.head, path.0).Some?
    && Strip(reason') == Strip(reason) && !Blank(session')
  }

  /** Nothing a reopening writes makes the same reopening inadmissible, wherever
      HEAD has moved on to. */
  lemma RetryAllowed(w: World, w': World, s: Store, path: Path, a: Archive, n: int,
                     reason: string, session: string, reason': string, session': string)
    requires WellFiled(s) && Continues(w, w', path, reason, reason', session') && Reopenable(w, s, path, reason, session)
    ensures Reopenable(w', Stage(s, path, a, n), path, reason', session')
    ensures TaskAt(w', path) == TaskAt(w, path) && !Blank(TaskAt(w, path))
  {
    hide PhaseActivated, WellFiled, Stage, SameBelow, Definitions, KeepsDefinition, Upholds;
    StripFacts(reason);
    StripFacts(reason');
    StageIsBelow(s, path, a, n);
    assert KeepsDefinition(w, w', (path.0, path.1));
    KeptDefinition(w, w', path);
    LoadedFile(w.commits, w.head, path);
    if path.1 > 0 {
      PhaseStaysActivated(w, w', s, Stage(s, path, a, n), path, Definitions(w.commits, w.head, path.0).value[path.1],
                          Definitions(w'.commits, w'.head, path.0).value[path.1]);
    }
  }

  // ----- crashes and retries -----

  /** One call by anyone, in any world, for any reason, cut after `steps`
      writes. */
  datatype Attempt = Attempt(world: World, reason: string, session: string, steps: nat)

  ghost function AttemptPlan(s: Store, path: Path, t: Attempt): Plan {
    ReopenPlan(t.world, s, path, t.reason, t.session)
  }

  ghost function AfterAttempts(s: Store, path: Path, ts: seq<Attempt>): Store
    decreases |ts|
  {
    if ts == [] then s
    else AfterAttempts(ApplyAll(s, Prefix(AttemptPlan(s, path, ts[0]).writes, ts[0].steps)), path, ts[1..])
  }

  /** A call that opens a new journal, on a sound store. */
  ghost predicate Opens(w: World, s: Store, path: Path, reason: string, session: string) {
    && Sound(s) && Reopenable(w, s, path, reason, session)
    && ChooseJournal(w, s, path, reason, session).Start?
  }

  lemma JournalAtStage(s: Store, path: Path, a: Archive, n: int)
    requires 1 <= n <= 5 && a.schema == SCHEMA && a.requirement == path.0 && a.phase == path.1
    requires !Blank(a.reason) && !Blank(a.reopenedBy) && !Blank(a.task)
    ensures ReadReopen(Stage(s, path, a, n), path) == ReadJournal(JournalAt(a, n))
    ensures n == 5 ==> !HasCandidate(Stage(s, path, a, 5), path)
  {
  }

  lemma ReopenableTask(w: World, s: Store, path: Path, reason: string, session: string)
    requires Reopenable(w, s, path, reason, session)
    ensures path.0 in s.meta && s.meta[path.0].task == Some(TaskAt(w, path))
  {
    hide PhaseActivated, Definitions;
  }

  lemma StageKeepsMeta(s: Store, path: Path, a: Archive, n: int)
    ensures Stage(s, path, a, n).meta == s.meta
  {
  }

  /** A call that finds the journal of stage n goes on with it when it is
      admitted and gives the same reason, and is refused otherwise. */
  predicate Resumes(s: Store, path: Path, reason: string, t: Attempt) {
    Reopenable(t.world, s, path, t.reason, t.session) && Strip(t.reason) == Strip(reason)
  }

  lemma ResumedPlan(w: World, s: Store, path: Path, reason: string, session: string, n: int, t: Attempt)
    requires Opens(w, s, path, reason, session) && 1 <= n <= 5
    ensures var a := NewArchive(w, s, path, reason, session);
            var at := Stage(s, path, a, n);
            && Archives(s, path, a)
            && AttemptPlan(at, path, t) == if Resumes(at, path, reason, t) then FinishPlan(at, path, JournalAt(a, n)) else REFUSED
  {
    hide FinishPlan, PhaseActivated, Stage, Definitions, Reopenable, ReadReopen, TaskAt, Pinned, Archives, NewArchive;
    var a := NewArchive(w, s, path, reason, session);
    NewArchiveArchives(w, s, path, reason, session);
    ArchiveFacts(w, s, path, reason, session);
    ReopenableTask(w, s, path, reason, session);
    JournalAtStage(s, path, a, n);
    var at := Stage(s, path, a, n);
    StageKeepsMeta(s, path, a, n);
    if Reopenable(t.world, at, path, t.reason, t.session) { ReopenableTask(t.world, at, path, t.reason, t.session); }
  }

  lemma NewArchiveArchives(w: World, s: Store, path: Path, reason: string, session: string)
    requires WellFiled(s)
    ensures Archives(s, path, NewArchive(w, s, path, reason, session))
  {
    hide WellFiled, NewArchive;
    var a := NewArchive(w, s, path, reason, session);
    ArchivesCandidates(w, s, path, reason, session);
    if (path, OfArchive(a)) in s.history {
      var key := (path, OfArchive(a));
      FiledUnderItsOwn(s, key);
      assert key.1.archive == a;
    }
  }

  lemma FiledUnderItsOwn(s: Store, key: (Path, Digest))
    requires WellFiled(s) && key in s.history
    ensures key.1.OfArchive? && s.history[key] == key.1.archive
  {
    hide ReadReopen, HasReview, HasActivation;
  }

  lemma ArchiveFacts(w: World, s: Store, path: Path, reason: string, session: string)
    requires Reopenable(w, s, path, reason, session)
    ensures var a := NewArchive(w, s, path, reason, session);
            && a.schema == SCHEMA && a.requirement == path.0 && a.phase == path.1
            && a.reason == Strip(reason) && !Blank(a.reason) && !Blank(a.reopenedBy)
            && a.task == TaskAt(w, path) && !Blank(a.task)
  {
    hide PhaseActivated, Definitions;
    StripFacts(reason);
    LoadedFile(w.commits, w.head, path);
  }

  lemma AttemptAdvances(w: World, s: Store, path: Path, reason: string, session: string, n: int, t: Attempt)
    returns (n': int)
    requires Opens(w, s, path, reason, session) && 1 <= n <= 5
    ensures n <= n' <= 5
    ensures var a := NewArchive(w, s, path, reason, session);
            var at := Stage(s, path, a, n);
            var plan := AttemptPlan(at, path, t);
            && (plan.ok <==> Resumes(at, path, reason, t)) && (plan.ok && t.steps >= |plan.writes| ==> n' == 5)
            && ApplyAll(at, Prefix(plan.writes, t.steps)) == Stage(s, path, a, n')
  {
    hide Opens, Resumes, Stage, FinishPlan, ReopenPlan, NewArchive, Archives, AttemptPlan;
    var a := NewArchive(w, s, path, reason, session);
    ResumedPlan(w, s, path, reason, session, n, t);
    if Resumes(Stage(s, path, a, n), path, reason, t) {
      n' := CutAtStage(s, path, a, n, t.steps);
    } else {
      n' := n;
      assert Prefix(REFUSED.writes, t.steps) == [];
    }
  }

  lemma {:induction false} AttemptsAdvance(w: World, s: Store, path: Path, reason: string, session: string, n: int,
                                           ts: seq<Attempt>) returns (n': int)
    requires Opens(w, s, path, reason, session) && 1 <= n <= 5
    ensures n <= n' <= 5
    ensures var a := NewArchive(w, s, path, reason, session);
            AfterAttempts(Stage(s, path, a, n), path, ts) == Stage(s, path, a, n')
    decreases |ts|
  {
    hide Opens, Stage, AttemptPlan, NewArchive;
    if ts == [] {
      n' := n;
    } else {
      n' := AttemptAdvances(w, s, path, reason, session, n, ts[0]);
      n' := AttemptsAdvance(w, s, path, reason, session, n', ts[1..]);
    }
  }

  lemma FirstCall(w: World, s: Store, path: Path, reason: string, session: string, k: nat) returns (n: int)
    requires Opens(w, s, path, reason, session) && k > 0
    ensures 1 <= n <= 5
    ensures var a := NewArchive(w, s, path, reason, session);
            var plan := ReopenPlan(w, s, path, reason, session);
            && plan.ok && (k >= |plan.writes| ==> n == 5)
            && ApplyAll(s, Prefix(plan.writes, k)) == Stage(s, path, a, n)
  {
    hide FinishPlan, PhaseActivated, Definitions, Reopenable, TaskAt, Pinned, Archives, NewArchive, WellFiled, ReadReopen;
    var a := NewArchive(w, s, path, reason, session);
    NewArchiveArchives(w, s, path, reason, session);
    n := CutAtStage(s, path, a, 1, k - 1);
    var j := NewJournal(a);
    assert Stage(s, path, a, 1) == Apply(s, PutReopen(path, j));
    assert JournalAt(a, 1) == j;
    FinishIgnoresJournal(s, path, j, j);
    var rest := FinishPlan(s, path, j).writes;
    var plan := ReopenPlan(w, s, path, reason, session);
    assert plan.writes == [PutReopen(path, j)] + rest by { StartsFresh(w, s, path, reason, session); }
    assert Prefix(plan.writes, k) == [PutReopen(path, j)] + Prefix(rest, k - 1);
    assert ([PutReopen(path, j)] + Prefix(rest, k - 1))[1..] == Prefix(rest, k - 1);
  }

  lemma StartsFresh(w: World, s: Store, path: Path, reason: string, session: string)
    requires Opens(w, s, path, reason, session)
    ensures var j := NewJournal(NewArchive(w, s, path, reason, session));
            var rest := FinishPlan(s, path, j);
            ReopenPlan(w, s, path, reason, session) == Plan([PutReopen(path, j)] + rest.writes, rest.ok)
  {
    hide FinishPlan, Reopenable, NewArchive, ReadReopen, Sound;
  }

  /** A reopening that opened a journal and crashed after any of its writes,
      was called again any number of times by anyone, in any worlds and for any
      reasons, each call crashing anywhere: the next call that is not
      interrupted succeeds exactly when it is admitted and gives the first
      reason, and then ends in exactly the files the first call would have left:
      the journal completed, both candidates gone, the archive made of the
      candidates there were before the first call. A later HEAD that keeps the
      definitions and plans up to the phase is such a world. */
  lemma ReopenRecovers(w: World, s: Store, path: Path, reason: string, session: string, k: nat,
                       ts: seq<Attempt>, last: Attempt)
    requires Opens(w, s, path, reason, session) && k > 0
    ensures var a := NewArchive(w, s, path, reason, session);
            var first := ReopenPlan(w, s, path, reason, session);
            var crashed := AfterAttempts(ApplyAll(s, Prefix(first.writes, k)), path, ts);
            var retry := AttemptPlan(crashed, path, last);
            var end := ApplyAll(crashed, retry.writes);
            && first.ok && (retry.ok <==> Resumes(crashed, path, reason, last))
            && (Continues(w, last.world, path, reason, last.reason, last.session) ==> retry.ok)
            && (retry.ok ==>
                  && end == ApplyAll(s, first.writes) && Finished(end, path, a)
                  && a.review == At(s.reviews, path) && a.gate == At(s.gates, path)
                  && ElsewhereSame(s, end, path))
  {
    hide Opens, Continues, Resumes, Stage, ReopenPlan, NewArchive, AttemptPlan;
    var a := NewArchive(w, s, path, reason, session);
    var first := ReopenPlan(w, s, path, reason, session);
    var whole := FirstCall(w, s, path, reason, session, |first.writes| + 1);
    var n := FirstCall(w, s, path, reason, session, k);
    n := AttemptsAdvance(w, s, path, reason, session, n, ts);
    var at := Stage(s, path, a, n);
    var uncut := last.(steps := |AttemptPlan(at, path, last).writes|);
    Uncut(at, path, reason, last, uncut);
    var n' := AttemptAdvances(w, s, path, reason, session, n, uncut);
    if Continues(w, last.world, path, reason, last.reason, last.session) { ContinuedResumes(w, s, path, reason, session, n, last); }
    LastStage(s, path, a);
    ArchivesCandidates(w, s, path, reason, session);
  }

  lemma ContinuedResumes(w: World, s: Store, path: Path, reason: string, session: string, n: int, t: Attempt)
    requires Opens(w, s, path, reason, session) && Continues(w, t.world, path, reason, t.reason, t.session)
    ensures Resumes(Stage(s, path, NewArchive(w, s, path, reason, session), n), path, reason, t)
  {
    hide Stage, NewArchive, Reopenable, LaterWorld, WellFiled, Pinned, Definitions;
    RetryAllowed(w, t.world, s, path, NewArchive(w, s, path, reason, session), n, reason, session, t.reason, t.session);
  }

  lemma Uncut(s: Store, path: Path, reason: string, t: Attempt, t': Attempt)
    requires t' == t.(steps := t'.steps)
    ensures AttemptPlan(s, path, t') == AttemptPlan(s, path, t) && (Resumes(s, path, reason, t') <==> Resumes(s, path, reason, t))
  {
    hide ReopenPlan, Reopenable;
  }

  lemma LastStage(s: Store, path: Path, a: Archive)
    ensures Finished(Stage(s, path, a, 5), path, a) && ElsewhereSame(s, Stage(s, path, a, 5), path)
  {
  }

  lemma ArchivesCandidates(w: World, s: Store, path: Path, reason: string, session: string)
    ensures var a := NewArchive(w, s, path, reason, session);
            a.review == At(s.reviews, path) && a.gate == At(s.gates, path)
  {
  }
}
