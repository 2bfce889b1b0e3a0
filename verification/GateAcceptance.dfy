/** When the operations on gate files are accepted, what they are accepted for,
    and what they leave, said of the files alone. */
module GateAcceptance {
  import opened Utf8
  import opened Strings
  import opened GateRecords
  import opened GateChain
  import opened GateMeaning
  import opened GateOps

  // ----- reopening -----

  /** The task of the phase is the requirement's current one, not done, by an
      activation that stands, and no later phase is activated. */
  ghost predicate MayReopen(w: World, s: Store, path: Path, reason: string, session: string, ds: seq<Definition>) {
    && !Blank(reason) && !Blank(session) && w.inPlace
    && Declares(w.commits, w.head, path.0, ds) && 0 <= path.1 < |ds|
    && path.0 in s.meta && s.meta[path.0] == Meta(Some(ds[path.1].task), s.meta[path.0].status, Set(true)) && s.meta[path.0].status != "done"
    && (path.0, path.1 + 1) !in s.activations
    && (path.1 > 0 ==> ActivatedFor(w, s, path, ds[path.1].task))
  }

  /** The phase's activation is on file, for this task, and stands on the chain
      below. */
  ghost predicate ActivatedFor(w: World, s: Store, path: Path, task: string) {
    && path in s.activations && (s.activations[path].requirement, s.activations[path].phase) == path && s.activations[path].task == task
    && (path.0, path.1 - 1) in s.gates
    && Opens(w, s.activations[path], s.gates[(path.0, path.1 - 1)]) && ChainStands(w, s, s.gates[(path.0, path.1 - 1)])
  }

  lemma ActivatedIs(w: World, s: Store, path: Path, d: Definition)
    ensures path.0 in s.meta && s.meta[path.0].task == Some(d.task) ==>
              (PhaseActivated(w, s, path, d, true) <==> ActivatedFor(w, s, path, d.task))
  {
    hide ActivationValid, Opens, ChainStands;
    if path in s.activations && s.activations[path].requirement == path.0 && s.activations[path].phase == path.1 {
      ActivationIs(w, s, s.activations[path]);
    }
  }

  lemma MayReopenIs(w: World, s: Store, path: Path, reason: string, session: string, ds: seq<Definition>)
    ensures MayReopen(w, s, path, reason, session, ds)
            <==> Reopenable(w, s, path, reason, session) && Definitions(w.commits, w.head, path.0) == Some(ds)
    ensures MayReopen(w, s, path, reason, session, ds) ==> TaskAt(w, path) == ds[path.1].task
  {
    hide Definitions, Declares, PhaseActivated, ActivatedFor, Blank;
    DefinitionsAre(w.commits, w.head, path.0, ds);
    if 0 <= path.1 < |ds| { ActivatedIs(w, s, path, ds[path.1]); }
  }

  /** The journal of a reopening is whole: of its own phase, with the fingerprint
      of its archive, and saying why, by whom and of which task. */
  ghost predicate Whole(path: Path, j: Journal) {
    && j.schema == 1 && j.fingerprint == OfArchive(j.archive) && (j.archive.requirement, j.archive.phase) == path
    && !Blank(j.archive.reason) && !Blank(j.archive.reopenedBy) && !Blank(j.archive.task)
  }

  ghost predicate SomethingThere(s: Store, path: Path) {
    path in s.reviews || path in s.gates
  }

  /** The archive a call is about: of the reopening that is under way, for the same
      reason and task only; else of whatever is there now; or, with nothing there,
      of the finished reopening of the same reason. */
  ghost predicate About(w: World, s: Store, path: Path, reason: string, session: string, task: string, a: Archive) {
    && (path in s.reopens ==> Whole(path, s.reopens[path]))
    && if path in s.reopens && s.reopens[path].pending then
         a == s.reopens[path].archive && a.reason == Strip(reason) && a.task == task
       else if SomethingThere(s, path) then
         a == Archive(1, path.0, path.1, task, Strip(reason), session, w.now,
                      if path in s.reviews then Some(s.reviews[path]) else None,
                      if path in s.gates then Some(s.gates[path]) else None)
       else
         path in s.reopens && a == s.reopens[path].archive && a.reason == Strip(reason)
  }

  /** No other archive is at its path, and what is there now is what it holds. */
  ghost predicate Archivable(s: Store, path: Path, a: Archive) {
    && ((path, OfArchive(a)) in s.history ==> s.history[(path, OfArchive(a))] == a)
    && (path in s.reviews ==> Some(s.reviews[path]) == a.review) && (path in s.gates ==> Some(s.gates[path]) == a.gate)
  }

  /** A reopening that is not refused at once works from an archive. */
  ghost predicate Admitted(w: World, s: Store, path: Path, reason: string, session: string, a: Archive) {
    exists ds :: AdmittedUnder(w, s, path, reason, session, ds, a)
  }

  ghost predicate AdmittedUnder(w: World, s: Store, path: Path, reason: string, session: string, ds: seq<Definition>, a: Archive) {
    MayReopen(w, s, path, reason, session, ds) && About(w, s, path, reason, session, ds[path.1].task, a)
  }

  lemma AboutIs(w: World, s: Store, path: Path, reason: string, session: string, task: string, a: Archive)
    requires TaskAt(w, path) == task
    ensures var chosen := ChooseJournal(w, s, path, reason, session);
            About(w, s, path, reason, session, task, a)
            <==> !chosen.Deny? && chosen.journal.archive == a && chosen.journal.fingerprint == OfArchive(a)
    ensures var chosen := ChooseJournal(w, s, path, reason, session);
            !chosen.Deny? ==> chosen.journal.schema == 1 && chosen.journal.fingerprint == OfArchive(chosen.journal.archive)
  {
    hide TaskAt, Strip, Blank;
  }

  lemma AdmittedIs(w: World, s: Store, path: Path, reason: string, session: string, a: Archive)
    ensures Admitted(w, s, path, reason, session, a)
            <==> && Reopenable(w, s, path, reason, session)
                 && var chosen := ChooseJournal(w, s, path, reason, session);
                 && !chosen.Deny? && chosen.journal.archive == a && chosen.journal.fingerprint == OfArchive(a)
  {
    hide Reopenable, Definitions, ChooseJournal, AdmittedUnder;
    if Reopenable(w, s, path, reason, session) {
      SomeDefinitions(w, s, path, reason, session);
      AdmittedUnderIs(w, s, path, reason, session, Definitions(w.commits, w.head, path.0).value, a);
    }
    if ds :| AdmittedUnder(w, s, path, reason, session, ds, a) { AdmittedUnderIs(w, s, path, reason, session, ds, a); }
  }

  lemma AdmittedUnderIs(w: World, s: Store, path: Path, reason: string, session: string, ds: seq<Definition>, a: Archive)
    ensures AdmittedUnder(w, s, path, reason, session, ds, a)
            <==> && Reopenable(w, s, path, reason, session) && Definitions(w.commits, w.head, path.0) == Some(ds)
                 && var chosen := ChooseJournal(w, s, path, reason, session);
                 && !chosen.Deny? && chosen.journal.archive == a && chosen.journal.fingerprint == OfArchive(a)
  {
    hide Reopenable, Definitions, ChooseJournal, About, TaskAt, Declares, ActivatedFor;
    MayReopenIs(w, s, path, reason, session, ds);
    if MayReopen(w, s, path, reason, session, ds) { AboutIs(w, s, path, reason, session, ds[path.1].task, a); }
  }

  lemma SomeDefinitions(w: World, s: Store, path: Path, reason: string, session: string)
    requires Reopenable(w, s, path, reason, session)
    ensures Definitions(w.commits, w.head, path.0).Some? && 0 <= path.1 < |Definitions(w.commits, w.head, path.0).value|
  {
    hide Definitions, PhaseActivated;
  }

  /** Reopening succeeds exactly when the call is admitted with an archive that can
      be stored; then it leaves that archive, a completed journal of it, and no
      candidate, and touches nothing else. A call that is not admitted writes
      nothing. */
  lemma ReopenAccepted(w: World, s: Store, path: Path, reason: string, session: string)
    ensures var plan := ReopenPlan(w, s, path, reason, session);
            && (plan.ok <==> exists a :: Admitted(w, s, path, reason, session, a) && Archivable(s, path, a))
            && (forall a | plan.ok && Admitted(w, s, path, reason, session, a) ::
                  ApplyAll(s, plan.writes) == s.(reviews := s.reviews - {path}, gates := s.gates - {path},
                                                 reopens := s.reopens[path := Journal(1, false, OfArchive(a), a)],
                                                 history := s.history[(path, OfArchive(a)) := a]))
            && ((forall a :: !Admitted(w, s, path, reason, session, a)) ==> plan == REFUSED)
  {
    hide Reopenable, ChooseJournal, FinishPlan, Admitted, Archivable, Definitions;
    var plan, chosen := ReopenPlan(w, s, path, reason, session), ChooseJournal(w, s, path, reason, session);
    forall a
      ensures Admitted(w, s, path, reason, session, a)
              <==> && Reopenable(w, s, path, reason, session) && !chosen.Deny?
                   && chosen.journal.archive == a && chosen.journal.fingerprint == OfArchive(a)
    {
      AdmittedIs(w, s, path, reason, session, a);
    }
    if Reopenable(w, s, path, reason, session) && !chosen.Deny? {
      var j := chosen.journal;
      AboutIs(w, s, path, reason, session, TaskAt(w, path), j.archive);
      assert Admitted(w, s, path, reason, session, j.archive);
      FinishDoes(s, path, j);
      if chosen.Start? {
        var s' := Apply(s, PutReopen(path, j));
        assert FinishPlan(s', path, j) == FinishPlan(s, path, j) by { FinishIgnoresJournal(s, path, j); }
        FinishDoes(s', path, j);
        assert ([PutReopen(path, j)] + FinishPlan(s, path, j).writes)[1..] == FinishPlan(s, path, j).writes;
        assert s.reopens[path := j][path := j.(pending := false)] == s.reopens[path := j.(pending := false)];
      }
    }
  }

  lemma FinishIgnoresJournal(s: Store, path: Path, j: Journal)
    ensures FinishPlan(Apply(s, PutReopen(path, j)), path, j) == FinishPlan(s, path, j)
  {
  }

  /** The second half of reopening, from a journal on. */
  lemma FinishDoes(s: Store, path: Path, j: Journal)
    requires j.fingerprint == OfArchive(j.archive)
    ensures var plan := FinishPlan(s, path, j);
            && (plan.ok <==> Archivable(s, path, j.archive))
            && (plan.ok ==> ApplyAll(s, plan.writes) == s.(reviews := s.reviews - {path}, gates := s.gates - {path},
                                                           reopens := s.reopens[path := j.(pending := false)],
                                                           history := s.history[(path, j.fingerprint) := j.archive]))
  {
    hide ApplyAll, Apply;
    var a, key, plan := j.archive, (path, j.fingerprint), FinishPlan(s, path, j);
    assert CandidatesArchived(s, path, a)
      <==> (path in s.reviews ==> Some(s.reviews[path]) == a.review) && (path in s.gates ==> Some(s.gates[path]) == a.gate);
    if plan.ok {
      var put := PutArchive(path, j.fingerprint, a);
      RemovalDoes(s, path, j);
      if key in s.history {
        assert plan.writes == [DropReview(path), DropGate(path), PutReopen(path, j.(pending := false))];
        assert s.history[key := a] == s.history;
      } else {
        FirstWrite(s, put, [DropReview(path), DropGate(path), PutReopen(path, j.(pending := false))]);
        ArchiveDoes(s, path, j);
        RemovalDoes(Apply(s, put), path, j);
      }
    }
  }

  lemma ArchiveDoes(s: Store, path: Path, j: Journal)
    ensures Apply(s, PutArchive(path, j.fingerprint, j.archive)) == s.(history := s.history[(path, j.fingerprint) := j.archive])
  {
  }

  lemma RemovalDoes(s: Store, path: Path, j: Journal)
    ensures ApplyAll(s, [DropReview(path), DropGate(path), PutReopen(path, j.(pending := false))])
         == s.(reviews := s.reviews - {path}, gates := s.gates - {path}, reopens := s.reopens[path := j.(pending := false)])
  {
    hide ApplyAll;
    ThreeWrites(s, DropReview(path), DropGate(path), PutReopen(path, j.(pending := false)));
  }

  lemma FirstWrite(s: Store, w: Write, ws: seq<Write>)
    ensures ApplyAll(s, [w] + ws) == ApplyAll(Apply(s, w), ws)
  {
    hide Apply;
    assert ([w] + ws)[1..] == ws;
  }

  lemma ThreeWrites(s: Store, a: Write, b: Write, c: Write)
    ensures ApplyAll(s, [a, b, c]) == Apply(Apply(Apply(s, a), b), c)
  {
    hide Apply;
    assert [a, b, c] == [a] + [b, c] && [b, c] == [b] + [c] && [c] == [c] + [];
    FirstWrite(s, a, [b, c]);
    FirstWrite(Apply(s, a), b, [c]);
    FirstWrite(Apply(Apply(s, a), b), c, []);
  }

  // ----- issuing -----

  /** A review of the current commit is on file, its receipts are as they were
      reviewed, and the runner vouches for them again. */
  ghost predicate ReviewedNow(w: World, s: Store, path: Path, revalidated: bool) {
    && path.1 >= 0 && path in s.reviews && revalidated && w.clean && IsSha(w.head) && NotBeingReopened(s, path)
    && var r := s.reviews[path];
    && r.schema == 1 && (r.requirement, r.phase, r.commit) == (path.0, path.1, w.head)
    && |r.receiptFingerprints| == |r.receipts| && (forall i, j | 0 <= i < j < |r.receipts| :: r.receipts[i] != r.receipts[j])
    && (forall i | 0 <= i < |r.receipts| ::
          StoredRun(s, path.0, r.receipts[i]) && r.receiptFingerprints[i] == OfReceipt(s.receipts[(path.0, r.receipts[i])]))
  }

  /** The gate a call is for: what is declared at HEAD, reviewed, handed in, and
      the gate below; of the time given. */
  ghost predicate IsGateFor(w: World, s: Store, path: Path, input: IssueInput, issuedAt: int, d: Definition, g: Gate)
    requires path in s.reviews
  {
    var r, below := s.reviews[path], (path.0, path.1 - 1);
    && FileDeclares(w.commits, w.head, path, d)
    && (g.requirement, g.phase, g.task, g.commit) == (path.0, path.1, d.task, w.head)
    && g.planFingerprint == d.planFingerprint && g.acceptanceFingerprint == OfAcceptance(d.acceptance)
    && g.results == input.results && g.summary == input.summary && g.issuedBy == input.issuedBy && g.issuedAt == issuedAt
    && g.receipts == r.receipts && g.receiptFingerprints == r.receiptFingerprints && g.attestation == r.attestation
    && g.status == "PASS" && g.schema == 1 && g.extra == ""
    && (path.1 > 0 ==> below in s.gates)
    && g.previousPhase == (if path.1 > 0 then Some(s.gates[below].phase) else None)
    && g.previousCommit == (if path.1 > 0 then Some(s.gates[below].commit) else None)
    && g.previousFingerprint == (if path.1 > 0 then Some(OfGate(s.gates[below])) else None)
  }

  /** The gate on file after a successful call: the one there, else a new one of
      now; in either case it is the gate the call is for, and valid. */
  ghost predicate Issues(w: World, s: Store, path: Path, input: IssueInput, revalidated: bool, d: Definition, g: Gate) {
    && ReviewedNow(w, s, path, revalidated)
    && IsGateFor(w, s, path, input, if path in s.gates then s.gates[path].issuedAt else w.now, d, g)
    && (path in s.gates ==> s.gates[path] == g) && GateValid(w, s, g)
  }

  lemma FingerprintsAre(s: Store, requirement: string, ids: seq<string>, ds: seq<Digest>)
    requires |ds| == |ids|
    ensures AllReceipts(s, requirement, ids) && Fingerprints(s, requirement, ids) == ds
            <==> forall i | 0 <= i < |ids| :: StoredRun(s, requirement, ids[i]) && ds[i] == OfReceipt(s.receipts[(requirement, ids[i])])
  {
    hide HasReceipt, StoredRun;
    forall i | 0 <= i < |ids| ensures HasReceipt(s, requirement, ids[i]) <==> StoredRun(s, requirement, ids[i]) {
      StoredIs(s, requirement, ids[i]);
    }
    if AllReceipts(s, requirement, ids) {
      InStore(s, requirement, ids);
      if Fingerprints(s, requirement, ids) == ds {
        forall i | 0 <= i < |ids| ensures ds[i] == OfReceipt(s.receipts[(requirement, ids[i])]) {
          assert Fingerprints(s, requirement, ids)[i] == ds[i];
        }
      }
    }
  }

  lemma InStore(s: Store, requirement: string, ids: seq<string>)
    requires AllReceipts(s, requirement, ids)
    ensures forall i | 0 <= i < |ids| :: (requirement, ids[i]) in s.receipts
  {
  }

  lemma IssuableIs(w: World, s: Store, path: Path, revalidated: bool)
    ensures Issuable(w, s, path, revalidated)
            <==> && ReviewedNow(w, s, path, revalidated) && Load(w.commits, w.head, path).Some? && (path.1 > 0 ==> (path.0, path.1 - 1) in s.gates)
  {
    hide NoPendingReopen, NotBeingReopened, HasReceipt, StoredRun, Loadable, IsSha;
    NoReopenIs(s, path);
    if path in s.reviews && |s.reviews[path].receiptFingerprints| == |s.reviews[path].receipts| {
      FingerprintsAre(s, path.0, s.reviews[path].receipts, s.reviews[path].receiptFingerprints);
    }
    assert Load(w.commits, w.head, path).Some? <==> Loadable(w.commits, w.head, path);
  }

  /** The gate of a call is fixed by what is on file. */
  lemma GateForIs(w: World, s: Store, path: Path, input: IssueInput, issuedAt: int, d: Definition, g: Gate)
    requires ReviewedNow(w, s, path, true) && HasReview(s, path) && AllReceipts(s, path.0, s.reviews[path].receipts)
    requires Load(w.commits, w.head, path) == Some(d) && (path.1 > 0 ==> (path.0, path.1 - 1) in s.gates)
    ensures IsGateFor(w, s, path, input, issuedAt, d, g) <==> g == Issued(w, s, path, d, input).(issuedAt := issuedAt)
  {
    hide HasReceipt, StoredRun, Loadable, IsSha, FileDeclares;
    FileLoads(w.commits, w.head, path, d);
    FingerprintsAre(s, path.0, s.reviews[path].receipts, s.reviews[path].receiptFingerprints);
  }

  /** Issuing succeeds exactly when there is a valid gate the call is for, and no
      other is on file; that gate is then on file, and nothing else has changed.
      Else nothing is written. */
  lemma IssueAccepted(w: World, s: Store, path: Path, input: IssueInput, revalidated: bool)
    ensures var plan := IssuePlan(w, s, path, input, revalidated);
            && (plan.ok <==> exists d, g :: Issues(w, s, path, input, revalidated, d, g))
            && (forall d, g | Issues(w, s, path, input, revalidated, d, g) ::
                  plan.writes == if path in s.gates then [] else [PutGate(path, g)])
            && (!plan.ok ==> plan.writes == [])
  {
    hide GateValid, Issuable, Issued, ReviewedNow, IsGateFor, Loadable;
    IssuableIs(w, s, path, revalidated);
    var plan := IssuePlan(w, s, path, input, revalidated);
    if Issuable(w, s, path, revalidated) {
      var d := Load(w.commits, w.head, path).value;
      Reviewed(w, s, path, revalidated);
      var at := if path in s.gates then s.gates[path].issuedAt else w.now;
      var g := Issued(w, s, path, d, input).(issuedAt := at);
      assert Issued(w, s, path, d, input).issuedAt == w.now by { IssuedNow(w, s, path, d, input); }
      forall d', g' ensures Issues(w, s, path, input, revalidated, d', g')
                            <==> d' == d && g' == g && (path in s.gates ==> s.gates[path] == g) && GateValid(w, s, g)
      {
        IssuesIs(w, s, path, input, revalidated, d, at, d', g');
      }
      assert plan.ok <==> Issues(w, s, path, input, revalidated, d, g);
    } else {
      forall d', g' ensures !Issues(w, s, path, input, revalidated, d', g') {
        if Issues(w, s, path, input, revalidated, d', g') { IssuesNeeds(w, s, path, input, revalidated, d', g'); }
      }
    }
  }

  lemma IssuesIs(w: World, s: Store, path: Path, input: IssueInput, revalidated: bool, d: Definition, at: int, d': Definition, g': Gate)
    requires ReviewedNow(w, s, path, revalidated) && HasReview(s, path) && AllReceipts(s, path.0, s.reviews[path].receipts)
    requires Load(w.commits, w.head, path) == Some(d) && (path.1 > 0 ==> (path.0, path.1 - 1) in s.gates)
    requires at == if path in s.gates then s.gates[path].issuedAt else w.now
    ensures var g := Issued(w, s, path, d, input).(issuedAt := at);
            Issues(w, s, path, input, revalidated, d', g')
            <==> d' == d && g' == g && (path in s.gates ==> s.gates[path] == g) && GateValid(w, s, g)
  {
    hide GateValid, Issued, IsGateFor, Loadable, HasReceipt, StoredRun, NotBeingReopened, FileDeclares;
    if Issues(w, s, path, input, revalidated, d', g') {
      DefinitionFor(w, s, path, input, at, d', g');
      FileLoads(w.commits, w.head, path, d');
    }
    GateForIs(w, s, path, input, at, d, g');
  }

  lemma DefinitionFor(w: World, s: Store, path: Path, input: IssueInput, at: int, d: Definition, g: Gate)
    requires path in s.reviews && IsGateFor(w, s, path, input, at, d, g)
    ensures FileDeclares(w.commits, w.head, path, d) && (path.1 > 0 ==> (path.0, path.1 - 1) in s.gates)
  {
    hide FileDeclares;
  }

  lemma IssuesNeeds(w: World, s: Store, path: Path, input: IssueInput, revalidated: bool, d: Definition, g: Gate)
    requires Issues(w, s, path, input, revalidated, d, g)
    ensures ReviewedNow(w, s, path, revalidated) && Load(w.commits, w.head, path).Some? && (path.1 > 0 ==> (path.0, path.1 - 1) in s.gates)
  {
    hide GateValid, IsGateFor, Loadable, StoredRun, NotBeingReopened, FileDeclares;
    DefinitionFor(w, s, path, input, if path in s.gates then s.gates[path].issuedAt else w.now, d, g);
    FileLoads(w.commits, w.head, path, d);
  }

  lemma Reviewed(w: World, s: Store, path: Path, revalidated: bool)
    requires Issuable(w, s, path, revalidated)
    ensures HasReview(s, path) && AllReceipts(s, path.0, s.reviews[path].receipts)
  {
    hide NoPendingReopen, HasReceipt, Loadable;
  }

  lemma IssuedNow(w: World, s: Store, path: Path, d: Definition, input: IssueInput)
    requires HasReview(s, path) && AllReceipts(s, path.0, s.reviews[path].receipts)
    requires path.1 > 0 ==> (path.0, path.1 - 1) in s.gates
    ensures Issued(w, s, path, d, input).issuedAt == w.now
  {
    hide HasReceipt;
  }

  // ----- reviews -----

  /** The gate as far as a review settles it: no results yet. */
  function Candidate(w: World, path: Path, d: Definition, r: Review): Gate {
    Gate(path.0, path.1, d.task, w.head, d.planFingerprint, OfAcceptance(d.acceptance), [], r.receipts, r.receiptFingerprints, "",
         r.attestation, w.now, r.attestation.reviewer, "PASS", None, None, None, 1, "")
  }

  /** The review a call is for: an outside pass, of now, of the clean HEAD, whose
      receipts are the evidence of a declared phase; a later phase's task is
      activated and the requirement's current one. */
  ghost predicate ReviewsNow(w: World, s: Store, path: Path, input: ReviewInput, reviewer: string, ds: seq<Definition>, r: Review) {
    && Declares(w.commits, w.head, path.0, ds) && 0 <= path.1 < |ds|
    && w.inPlace && w.clean && IsSha(w.head) && NotBeingReopened(s, path)
    && r == Review(path.0, path.1, w.head, input.receipts, r.receiptFingerprints,
                   Attestation(reviewer, input.sessions, input.runs, input.verdict, input.findings, w.now, 1), 1)
    && OutsideReview(r.attestation) && r.receipts != []
    && Evidenced(w, s, Candidate(w, path, ds[path.1], r), ds[path.1], if path.1 > 0 then Some(Since(s, path)) else None)
    && (forall item | item in ds[path.1].acceptance :: !Blank(item.id))
    && (path.1 > 0 ==> ActivatedFor(w, s, path, ds[path.1].task) && path.0 in s.meta && s.meta[path.0].task == Some(ds[path.1].task))
  }

  function Since(s: Store, path: Path): int {
    if path in s.activations then s.activations[path].activatedAt else 0
  }

  lemma NamesSome(id: string)
    requires IsIdentifier(id)
    ensures !Blank(id)
  {
    assert Alnum(id[0]) && !IsSpace(id[0]);
  }

  lemma NotBlank()
    ensures !Blank("independent review input validation") && !Blank("reviewed")
  {
    assert !IsSpace("independent review input validation"[0]) && !IsSpace("reviewed"[0]);
  }

  lemma StoredNames(s: Store, requirement: string, ids: seq<string>)
    requires AllReceipts(s, requirement, ids)
    ensures forall i | 0 <= i < |ids| :: !Blank(ids[i])
  {
    hide ReceiptFacts, Blank, IsIdentifier;
    forall i | 0 <= i < |ids| ensures !Blank(ids[i]) { NamesSome(ids[i]); }
  }

  /** A review is checked as a gate whose every item passed on its first receipt. */
  lemma ProvisionalPasses(w: World, s: Store, path: Path, ds: seq<Definition>, input: ReviewInput, reviewer: string)
    requires Declares(w.commits, w.head, path.0, ds) && 0 <= path.1 < |ds|
    requires AllReceipts(s, path.0, input.receipts) && !Blank(reviewer)
    ensures var d := ds[path.1];
            SaysPass(w.now, Provisional(w, s, path, d, input, reviewer))
            <==> && IsSha(w.head) && OutsideReview(AttestationOf(input, reviewer, w.now)) && input.receipts != []
                 && forall item | item in d.acceptance :: !Blank(item.id)
  {
    hide Blank, IsSha, IsRequirement, OutsideReview, HasReceipt, AllPass;
    NotBlank();
    StoredNames(s, path.0, input.receipts);
    var d := ds[path.1];
    assert FileDeclares(w.commits, w.head, (path.0, path.1), d);
    var g := Provisional(w, s, path, d, input, reviewer);
    assert |g.results| == |d.acceptance| && forall i | 0 <= i < |g.results| :: g.results[i].id == d.acceptance[i].id;
    ItemsPass(g, d, input);
    assert forall i | 0 <= i < |g.receiptFingerprints| :: !g.receiptFingerprints[i].Malformed?;
  }

  lemma ItemsPass(g: Gate, d: Definition, input: ReviewInput)
    requires d.acceptance != [] && forall i, j | 0 <= i < j < |d.acceptance| :: d.acceptance[i].id != d.acceptance[j].id
    requires input.receipts != [] ==> !Blank(input.receipts[0])
    requires g.results == seq(|d.acceptance|, i requires 0 <= i < |d.acceptance| =>
                                Result(d.acceptance[i].id, "PASS", "reviewed", [if input.receipts == [] then "missing" else input.receipts[0]], 1))
    ensures input.receipts != [] ==> (AllPass(g) <==> forall item | item in d.acceptance :: !Blank(item.id))
  {
    NotBlank();
    hide Blank;
    assert forall i | 0 <= i < |g.results| :: g.results[i].id == d.acceptance[i].id;
    if AllPass(g) {
      forall item | item in d.acceptance ensures !Blank(item.id) {
        var i :| 0 <= i < |d.acceptance| && d.acceptance[i] == item;
        assert !Blank(g.results[i].id);
      }
    }
  }

  /** What counts of a candidate counts of the gate it is checked as. */
  lemma SameEvidence(w: World, s: Store, path: Path, d: Definition, input: ReviewInput, reviewer: string, since: Option<int>)
    requires AllReceipts(s, path.0, input.receipts)
    ensures var g := Provisional(w, s, path, d, input, reviewer);
            var c := Candidate(w, path, d, ReviewOf(w, s, path, input, reviewer));
            input.receipts != [] ==> (Evidenced(w, s, g, d, since) <==> Evidenced(w, s, c, d, since))
  {
    hide StoredRun, HasReceipt, EachCounts, AllCovered;
    var g := Provisional(w, s, path, d, input, reviewer);
    var c := Candidate(w, path, d, ReviewOf(w, s, path, input, reviewer));
    SameRecord(w, s, path, d, input, reviewer);
    SameCounts(w, s, g, c, d, since);
    assert forall result | result in g.results :: input.receipts != [] ==> result.evidence == [input.receipts[0]];
  }

  /** What of a gate its evidence is about. */
  ghost predicate SameMatter(g: Gate, c: Gate) {
    && g.requirement == c.requirement && g.phase == c.phase && g.commit == c.commit && g.receipts == c.receipts
    && g.receiptFingerprints == c.receiptFingerprints && g.attestation == c.attestation && g.issuedAt == c.issuedAt
  }

  lemma SameRecord(w: World, s: Store, path: Path, d: Definition, input: ReviewInput, reviewer: string)
    requires AllReceipts(s, path.0, input.receipts)
    ensures SameMatter(Provisional(w, s, path, d, input, reviewer), Candidate(w, path, d, ReviewOf(w, s, path, input, reviewer)))
  {
    hide HasReceipt;
  }

  lemma SameCounts(w: World, s: Store, g: Gate, c: Gate, d: Definition, since: Option<int>)
    requires SameMatter(g, c)
    ensures EachCounts(w, s, g, d, since) <==> EachCounts(w, s, c, d, since)
    ensures AllCovered(s, g, d) <==> AllCovered(s, c, d)
  {
    hide RanSuite;
    forall r: Receipt ensures Cites(s, g, r) <==> Cites(s, c, r) {}
    forall r: Receipt, f: Digest ensures Counts(w, g, d, since, r, f) <==> Counts(w, c, d, since, r, f) {}
    hide Cites, Counts;
  }

  /** All receipts are there, and the review carries what they are. */
  ghost predicate Carries(s: Store, path: Path, input: ReviewInput, r: Review) {
    AllReceipts(s, path.0, input.receipts) && r.receiptFingerprints == Fingerprints(s, path.0, input.receipts)
  }

  lemma EvidencedCarries(w: World, s: Store, path: Path, d: Definition, input: ReviewInput, r: Review, since: Option<int>)
    requires r.receipts == input.receipts && Evidenced(w, s, Candidate(w, path, d, r), d, since)
    ensures Carries(s, path, input, r)
  {
    hide StoredRun, HasReceipt, AllCovered, RanSuite;
    var g := Candidate(w, path, d, r);
    forall i | 0 <= i < |g.receipts|
      ensures (path.0, g.receipts[i]) in s.receipts && HasReceipt(s, path.0, g.receipts[i])
              && g.receiptFingerprints[i] == OfReceipt(s.receipts[(path.0, g.receipts[i])])
    {
      StoredIs(s, path.0, g.receipts[i]);
      assert Counts(w, g, d, since, s.receipts[(g.requirement, g.receipts[i])], g.receiptFingerprints[i]);
    }
  }

  lemma ProvisionalAtHead(w: World, s: Store, path: Path, d: Definition, input: ReviewInput, reviewer: string)
    requires AllReceipts(s, path.0, input.receipts)
    ensures ExactHead(w, s, Provisional(w, s, path, d, input, reviewer)) <==> NotBeingReopened(s, path) && w.inPlace && w.clean && IsSha(w.head)
  {
    hide HasReceipt, NoPendingReopen, NotBeingReopened, IsSha;
    NoReopenIs(s, path);
  }

  lemma ReviewableIs(w: World, s: Store, path: Path, input: ReviewInput, reviewer: string, ds: seq<Definition>, r: Review)
    ensures ReviewsNow(w, s, path, input, reviewer, ds, r)
            <==> && Reviewable(w, s, path, input, reviewer) && Definitions(w.commits, w.head, path.0) == Some(ds)
                 && AllReceipts(s, path.0, input.receipts) && r == ReviewOf(w, s, path, input, reviewer)
  {
    hide Definitions, Declares, Provisional, PassFacts, ExactHead, PhaseActivated, ActivatedFor, ReceiptBindings, HasReceipt, Evidenced,
      OutsideReview, Blank, IsSha, NotBeingReopened, FileDeclares;
    DefinitionsAre(w.commits, w.head, path.0, ds);
    if Declares(w.commits, w.head, path.0, ds) && 0 <= path.1 < |ds| {
      var d := ds[path.1];
      var since := if path.1 > 0 then Some(Since(s, path)) else None;
      ActivatedIs(w, s, path, d);
      if ReviewsNow(w, s, path, input, reviewer, ds, r) {
        EvidencedCarries(w, s, path, d, input, r, since);
        ReviewerNamed(r.attestation);
      }
      if AllReceipts(s, path.0, input.receipts) && !Blank(reviewer) {
        var g := Provisional(w, s, path, d, input, reviewer);
        PassIs(w.now, g);
        ProvisionalPasses(w, s, path, ds, input, reviewer);
        ProvisionalAtHead(w, s, path, d, input, reviewer);
        SameEvidence(w, s, path, d, input, reviewer, since);
        EvidenceIs(w, s, g, d, since);
        ActivatedSince(w, s, path, d);
      }
    }
  }

  lemma ActivatedSince(w: World, s: Store, path: Path, d: Definition)
    ensures PhaseActivated(w, s, path, d, true) ==>
              path in s.activations && s.activations[path].activatedAt == Since(s, path) && path.0 in s.meta && s.meta[path.0].task == Some(d.task)
  {
    hide ActivationValid;
  }

  lemma ReviewerNamed(a: Attestation)
    requires OutsideReview(a)
    ensures !Blank(a.reviewer)
  {
    hide Blank;
  }

  /** The review on file after a successful call: of what was seen before the lock,
      if HEAD is still the same and clean and no reopening has begun. One that is
      there already must be the same but for its time, and stays. */
  ghost predicate Records(w: World, s: Store, path: Path, input: ReviewInput, reviewer: string, seen: Seen, ds: seq<Definition>, r: Review) {
    && ReviewsNow(seen.world, seen.store, path, input, reviewer, ds, r)
    && NotBeingReopened(s, path) && w.inPlace && w.clean && IsSha(w.head) && w.head == seen.world.head
    && (path in s.reviews ==>
          s.reviews[path] == r.(attestation := r.attestation.(reviewedAt := s.reviews[path].attestation.reviewedAt)))
  }

  /** Recording a review succeeds exactly when there is one that the call is for;
      it writes that review where there is none, and else nothing. */
  lemma ReviewAccepted(w: World, s: Store, path: Path, input: ReviewInput, reviewer: string, seen: Seen)
    ensures var plan := ReviewPlan(w, s, path, input, reviewer, seen);
            && (plan.ok <==> exists ds, r :: Records(w, s, path, input, reviewer, seen, ds, r))
            && (forall ds, r | Records(w, s, path, input, reviewer, seen, ds, r) ::
                  plan.writes == if path in s.reviews then [] else [PutReview(path, r)])
            && (!plan.ok ==> plan.writes == [])
  {
    hide Reviewable, ReviewsNow, Definitions, HasReceipt, StillCurrent;
    var plan := ReviewPlan(w, s, path, input, reviewer, seen);
    forall ds, r ensures Records(w, s, path, input, reviewer, seen, ds, r) ==>
                           plan.ok && plan.writes == if path in s.reviews then [] else [PutReview(path, r)]
    {
      if Records(w, s, path, input, reviewer, seen, ds, r) {
        ReviewableIs(seen.world, seen.store, path, input, reviewer, ds, r);
        StillIs(w, s, path, r.commit);
      }
    }
    if plan.ok {
      ReviewableSome(seen.world, seen.store, path, input, reviewer);
      var ds := Definitions(seen.world.commits, seen.world.head, path.0).value;
      var r := ReviewOf(seen.world, seen.store, path, input, reviewer);
      ReviewableIs(seen.world, seen.store, path, input, reviewer, ds, r);
      StillIs(w, s, path, r.commit);
      assert Records(w, s, path, input, reviewer, seen, ds, r);
    }
  }

  lemma StillIs(w: World, s: Store, path: Path, commit: string)
    ensures StillCurrent(w, s, path, commit) <==> NotBeingReopened(s, path) && w.inPlace && w.clean && IsSha(w.head) && commit == w.head
  {
    hide NoPendingReopen, NotBeingReopened, IsSha;
    NoReopenIs(s, path);
  }

  lemma ReviewableSome(w: World, s: Store, path: Path, input: ReviewInput, reviewer: string)
    requires Reviewable(w, s, path, input, reviewer)
    ensures Definitions(w.commits, w.head, path.0).Some? && AllReceipts(s, path.0, input.receipts)
  {
    hide Definitions, PassFacts, ExactHead, PhaseActivated, ReceiptBindings, HasReceipt, Provisional;
  }

  // ----- an operation in a run -----

  /** What an operation that nothing stops makes of the files. */
  ghost predicate Makes(w: World, s: Store, op: Op, end: Store) {
    match op
    case RecordReview(path, input, reviewer, seen) => MakesReview(w, s, path, input, reviewer, seen, end)
    case IssueGate(path, input, revalidated) => MakesGate(w, s, path, input, revalidated, end)
    case Activate(a) =>
      var (path, below) := ((a.requirement, a.phase), (a.requirement, a.phase - 1));
      end == if below in s.gates && Opens(w, a, s.gates[below]) && ChainStands(w, s, s.gates[below]) && path !in s.activations
             then s.(activations := s.activations[path := a]) else s
    case Reopen(path, reason, session) => MakesReopened(w, s, path, reason, session, end)
  }

  ghost predicate MakesReview(w: World, s: Store, path: Path, input: ReviewInput, reviewer: string, seen: Seen, end: Store) {
    && (forall ds, r | Records(w, s, path, input, reviewer, seen, ds, r) ::
          end == if path in s.reviews then s else s.(reviews := s.reviews[path := r]))
    && ((forall ds, r :: !Records(w, s, path, input, reviewer, seen, ds, r)) ==> end == s)
  }

  ghost predicate MakesGate(w: World, s: Store, path: Path, input: IssueInput, revalidated: bool, end: Store) {
    && (forall d, g | Issues(w, s, path, input, revalidated, d, g) :: end == if path in s.gates then s else s.(gates := s.gates[path := g]))
    && ((forall d, g :: !Issues(w, s, path, input, revalidated, d, g)) ==> end == s)
  }

  ghost predicate MakesReopened(w: World, s: Store, path: Path, reason: string, session: string, end: Store) {
    && (forall a | Admitted(w, s, path, reason, session, a) && Archivable(s, path, a) ::
          end == s.(reviews := s.reviews - {path}, gates := s.gates - {path},
                    reopens := s.reopens[path := Journal(1, false, OfArchive(a), a)], history := s.history[(path, OfArchive(a)) := a]))
    && ((forall a :: !Admitted(w, s, path, reason, session, a)) ==> end == s)
  }

  /** In a run, an operation stopped before its first write changes nothing but the
      metadata and receipts others rewrote, and one stopped after its last makes
      what it is accepted for. */
  lemma ActMakes(s: Store, act: Act)
    ensures var before := s.(meta := act.meta, receipts := act.receipts);
            && (act.steps == 0 ==> Leaves(s, act) == before)
            && (act.steps >= 5 ==> Makes(act.world, before, act.op, Leaves(s, act)))
  {
    hide ReviewPlan, IssuePlan, ActivatePlan, ReopenPlan, ApplyAll, Makes;
    var before := GateOps.Before(s, act);
    var plan := PlanOf(act.world, before, act.op);
    if act.steps == 0 { NoWrites(before, plan.writes); }
    if act.steps >= 5 {
      FiveWrites(act.world, before, act.op);
      PlanMakes(act.world, before, act.op);
    }
  }

  lemma NoWrites(s: Store, ws: seq<Write>)
    ensures ApplyAll(s, Prefix(ws, 0)) == s
  {
  }

  lemma FiveWrites(w: World, s: Store, op: Op)
    ensures |PlanOf(w, s, op).writes| <= 5
  {
    hide Reopenable, ChooseJournal, ActivationValid, CandidatesArchived;
    match op
    case RecordReview(path, input, reviewer, seen) => ReviewAccepted(w, s, path, input, reviewer, seen);
    case IssueGate(path, input, revalidated) => IssueAccepted(w, s, path, input, revalidated);
    case Activate(_) =>
    case Reopen(_, _, _) =>
  }

  lemma PlanMakes(w: World, s: Store, op: Op)
    ensures Makes(w, s, op, ApplyAll(s, PlanOf(w, s, op).writes))
  {
    hide ReviewPlan, IssuePlan, ActivationValid, ReopenPlan, Records, Issues, Admitted, Archivable, Opens, ChainStands;
    match op
    case RecordReview(path, input, reviewer, seen) =>
      ReviewAccepted(w, s, path, input, reviewer, seen);
    case IssueGate(path, input, revalidated) =>
      IssueAccepted(w, s, path, input, revalidated);
    case Activate(a) =>
      ActivationIs(w, s, a);
    case Reopen(path, reason, session) =>
      ReopenAccepted(w, s, path, reason, session);
      if !ReopenPlan(w, s, path, reason, session).ok {
        assert forall a | Admitted(w, s, path, reason, session, a) :: !Archivable(s, path, a);
      }
  }
}
