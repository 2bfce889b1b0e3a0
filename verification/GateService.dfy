/** The gate operations as the steps they take on the workspace files. Every
    file write goes into the trace, so a crash anywhere leaves a prefix of it. */
module GateServices {
  import opened Utf8
  import opened Strings
  import opened GateRecords
  import opened GateChain
  import opened GateOps
  import opened GateRuns

  lemma {:induction false} WritesAppend(s: Store, first: seq<Write>, rest: seq<Write>)
    ensures ApplyAll(s, first + rest) == ApplyAll(ApplyAll(s, first), rest)
    decreases |first|
  {
    hide Apply;
    if first == [] {
      assert first + rest == rest;
    } else {
      WritesAppend(Apply(s, first[0]), first[1..], rest);
      assert (first + rest)[1..] == first[1..] + rest;
    }
  }

  lemma ApplyOne(s: Store, w: Write)
    ensures ApplyAll(s, [w]) == Apply(s, w)
  {
    hide Apply;
    assert [w][1..] == [];
    assert ApplyAll(Apply(s, w), []) == Apply(s, w);
  }

  class GateStore {
    var files: Store
    ghost var trace: seq<Write>

    constructor ()
      ensures files == EMPTY && trace == []
    {
      files, trace := EMPTY, [];
    }

    /** One atomic write. */
    method Perform(w: Write)
      modifies this
      ensures files == Apply(old(files), w) && trace == old(trace) + [w]
      ensures files == ApplyAll(old(files), [w])
    {
      ApplyOne(files, w);
      files := Apply(files, w);
      trace := trace + [w];
    }

    /** The writes of a plan are done, in its order, and nothing else. */
    twostate predicate Did(plan: Plan)
      reads this
    {
      files == ApplyAll(old(files), plan.writes) && trace == old(trace) + plan.writes
    }

    /** The second half of reopen, from a durable journal on. */
    method Finish(path: Path, j: Journal) returns (ok: bool)
      modifies this
      ensures Did(FinishPlan(old(files), path, j)) && ok == FinishPlan(old(files), path, j).ok
    {
      hide Apply, CandidatesArchived;
      ghost var was := files;
      var key := (path, j.fingerprint);
      var candidates := CandidatesArchived(files, path, j.archive);
      ghost var archive := if key in files.history then [] else [PutArchive(path, j.fingerprint, j.archive)];
      if key in files.history {
        if files.history[key] != j.archive { return false; }
      } else {
        Perform(PutArchive(path, j.fingerprint, j.archive));
      }
      if !candidates { return false; }
      ghost var s1 := files;
      Perform(DropReview(path));
      ghost var s2 := files;
      Perform(DropGate(path));
      ghost var s3 := files;
      Perform(PutReopen(path, j.(pending := false)));
      ghost var drop, gone, done := DropReview(path), DropGate(path), PutReopen(path, j.(pending := false));
      WritesAppend(s2, [gone], [done]);
      assert [gone] + [done] == [gone, done];
      WritesAppend(s1, [drop], [gone, done]);
      assert [drop] + [gone, done] == [drop, gone, done];
      WritesAppend(was, archive, [drop, gone, done]);
      return true;
    }

    /** Nothing stored is lost or changed by what an operation did, and every
        file still holds a record of its own path. */
    twostate predicate KeptSound()
      reads this
    {
      Sound(old(files)) ==> Sound(files) && Keeps(old(files), files)
    }

    method Reopen(w: World, path: Path, reason: string, session: string) returns (ok: bool)
      modifies this
      ensures Did(ReopenPlan(w, old(files), path, reason, session)) && KeptSound()
      ensures ok == ReopenPlan(w, old(files), path, reason, session).ok
      ensures ok ==> path !in files.reviews && path !in files.gates && path in files.reopens && !files.reopens[path].pending
                     && files.reopens[path].archive.reason == Strip(reason)
                     && (path, files.reopens[path].fingerprint) in files.history
                     && files.history[(path, files.reopens[path].fingerprint)] == files.reopens[path].archive
    {
      hide Apply, FinishPlan, ReadReopen, Reopenable, NewArchive, TaskAt, Sound, Keeps;
      ghost var was := files;
      SoundAfter(w, files, GateOps.Op.Reopen(path, reason, session));
      ReopenIs(w, files, path, reason, session);
      ReopenLeaves(w, files, path, reason, session);
      if !Reopenable(w, files, path, reason, session) { return false; }
      var chosen := ChooseJournal(w, files, path, reason, session);
      match chosen {
        case Deny => return false;
        case Resume(j) => ok := Finish(path, j);
        case Start(j) =>
          FinishReadsCandidates(files, path, j);
          Perform(PutReopen(path, j));
          ghost var journalled := files;
          ok := Finish(path, j);
          WritesAppend(was, [PutReopen(path, j)], FinishPlan(journalled, path, j).writes);
      }
    }

    /** record_review_from_payload. What is seen before the lock comes in as it
        was then. */
    method RecordReview(w: World, path: Path, input: ReviewInput, reviewer: string, seen: Seen) returns (ok: bool)
      modifies this
      ensures Did(ReviewPlan(w, old(files), path, input, reviewer, seen)) && KeptSound()
      ensures ok ==>
                && path in files.reviews && NoPendingReopen(files, path)
                && var r := files.reviews[path];
                && r.commit == w.head && r.receipts == input.receipts && r.attestation.reviewer == reviewer
                && r.attestation.sessions == input.sessions && reviewer !in input.sessions && input.verdict == "PASS"
      ensures path in old(files).reviews ==> files == old(files)
      ensures !ok ==> files == old(files)
    {
      hide StillCurrent, ReviewOf, ReviewFacts, PassFacts, ExactHead, PhaseActivated, ReceiptBindings, Provisional,
        Definitions, HasReceipt, Reviewable, Sound, Keeps;
      SoundAfter(w, files, GateOps.Op.RecordReview(path, input, reviewer, seen));
      ReviewIs(w, files, path, input, reviewer, seen);
      if !Reviewable(seen.world, seen.store, path, input, reviewer) { return false; }
      ReviewableFacts(seen.world, seen.store, path, input, reviewer);
      var r := ReviewOf(seen.world, seen.store, path, input, reviewer);
      if StillCurrent(w, files, path, r.commit) { CurrentFacts(w, files, path, r); }
      if path in files.reviews {
        var stored := files.reviews[path];
        return HasReview(files, path) && stored == r.(attestation := r.attestation.(reviewedAt := stored.attestation.reviewedAt))
               && StillCurrent(w, files, path, r.commit);
      }
      if !StillCurrent(w, files, path, r.commit) { return false; }
      Perform(PutReview(path, r));
      ReadsOnly(old(files), files, path);
      return true;
    }

    /** issue_from_payload */
    method IssueGate(w: World, path: Path, input: IssueInput, revalidated: bool) returns (ok: bool)
      modifies this
      ensures Did(IssuePlan(w, old(files), path, input, revalidated)) && KeptSound()
      ensures ok ==>
                && path in files.gates && path in old(files).reviews
                && var g, review := files.gates[path], old(files).reviews[path];
                && GateValid(w, old(files), g) && g.commit == w.head && g.commit == review.commit
                && g.attestation == review.attestation && g.receipts == review.receipts
                && g.receiptFingerprints == review.receiptFingerprints && g.results == input.results
      ensures path in old(files).gates ==> files == old(files)
      ensures !ok ==> files == old(files)
    {
      hide Issuable, GateValid, Issued, Sound, Keeps;
      SoundAfter(w, files, GateOps.Op.IssueGate(path, input, revalidated));
      IssueIs(w, files, path, input, revalidated);
      if !Issuable(w, files, path, revalidated) { return false; }
      IssuableFacts(w, files, path, revalidated);
      var g := Issued(w, files, path, Load(w.commits, w.head, path).value, input);
      IssuedFacts(w, files, path, revalidated, input);
      if path in files.gates {
        var stored := files.gates[path];
        return g.(issuedAt := stored.issuedAt) == stored && GateValid(w, files, stored);
      }
      if !GateValid(w, files, g) { return false; }
      Perform(PutGate(path, g));
      return true;
    }

    /** _write_activation */
    method WriteActivation(w: World, a: Activation) returns (ok: bool)
      modifies this
      ensures Did(ActivatePlan(w, old(files), a)) && KeptSound()
      ensures ok <==> ActivationValid(w, old(files), a)
                      && ((a.requirement, a.phase) in old(files).activations ==> old(files).activations[(a.requirement, a.phase)] == a)
      ensures ok ==>
                && var path, below := (a.requirement, a.phase), (a.requirement, a.phase - 1);
                && path in files.activations && files.activations[path] == a
                && below in files.gates && files.gates[below] == old(files).gates[below]
                && a.predecessorFingerprint == OfGate(files.gates[below]) && a.predecessorCommit == files.gates[below].commit
      ensures !ok ==> files == old(files)
    {
      hide ActivationValid, Sound, Keeps;
      SoundAfter(w, files, GateOps.Op.Activate(a));
      ActivateIs(w, files, a);
      if !ActivationValid(w, files, a) { return false; }
      ActivationFactsOf(w, files, a);
      var path := (a.requirement, a.phase);
      if path in files.activations { return HasActivation(files, path) && files.activations[path] == a; }
      Perform(PutActivation(path, a));
      return true;
    }
  }

  // ----- what the operations come to -----

  lemma SoundAfter(w: World, s: Store, op: Op)
    ensures Sound(s) ==> Sound(ApplyAll(s, PlanOf(w, s, op).writes)) && Keeps(s, ApplyAll(s, PlanOf(w, s, op).writes))
  {
    hide Sound, Keeps, PlanOf, SafeAll;
    if Sound(s) {
      PlanIsSafe(w, s, op);
      SafeWrites(s, PlanOf(w, s, op).writes);
    }
  }

  lemma IssuableFacts(w: World, s: Store, path: Path, revalidated: bool)
    requires Issuable(w, s, path, revalidated)
    ensures HasReview(s, path) && AllReceipts(s, path.0, s.reviews[path].receipts) && Load(w.commits, w.head, path).Some?
    ensures path.1 > 0 ==> (path.0, path.1 - 1) in s.gates
  {
    hide Loadable;
  }

  lemma FinishReadsCandidates(s: Store, path: Path, j: Journal)
    ensures FinishPlan(Apply(s, PutReopen(path, j)), path, j) == FinishPlan(s, path, j)
  {
  }

  lemma ReopenIs(w: World, s: Store, path: Path, reason: string, session: string)
    ensures PlanOf(w, s, GateOps.Op.Reopen(path, reason, session)) == ReopenPlan(w, s, path, reason, session)
  {
    hide ReopenPlan;
  }

  /** What an accepted reopening leaves at its path. */
  lemma FinishLeaves(s: Store, path: Path, j: Journal)
    requires FinishPlan(s, path, j).ok
    ensures var end := ApplyAll(s, FinishPlan(s, path, j).writes);
            && path !in end.reviews && path !in end.gates && path in end.reopens && end.reopens[path] == j.(pending := false)
            && (path, j.fingerprint) in end.history && end.history[(path, j.fingerprint)] == j.archive
  {
    hide CandidatesArchived;
    var put := PutArchive(path, j.fingerprint, j.archive);
    var archive := if (path, j.fingerprint) in s.history then [] else [put];
    var s1 := ApplyAll(s, archive);
    if archive != [] { ApplyOne(s, put); }
    assert (path, j.fingerprint) in s1.history && s1.history[(path, j.fingerprint)] == j.archive;
    RemovalLeaves(s1, path, j);
    WritesAppend(s, archive, [DropReview(path), DropGate(path), PutReopen(path, j.(pending := false))]);
  }

  lemma RemovalLeaves(s: Store, path: Path, j: Journal)
    ensures var end := ApplyAll(s, [DropReview(path), DropGate(path), PutReopen(path, j.(pending := false))]);
            && path !in end.reviews && path !in end.gates && path in end.reopens && end.reopens[path] == j.(pending := false)
            && end.history == s.history
  {
    var drop, gone, done := DropReview(path), DropGate(path), PutReopen(path, j.(pending := false));
    var s1 := Apply(s, drop);
    var s2 := Apply(s1, gone);
    assert ApplyAll(s2, [done]) == Apply(s2, done) by { assert [done][1..] == []; }
    assert ApplyAll(s1, [gone, done]) == Apply(s2, done) by { assert [gone, done][1..] == [done]; }
    assert [drop, gone, done][1..] == [gone, done];
  }

  lemma ReopenLeaves(w: World, s: Store, path: Path, reason: string, session: string)
    ensures ReopenPlan(w, s, path, reason, session).ok ==>
              var end := ApplyAll(s, ReopenPlan(w, s, path, reason, session).writes);
              && path !in end.reviews && path !in end.gates && path in end.reopens && !end.reopens[path].pending
              && end.reopens[path].archive.reason == Strip(reason)
              && (path, end.reopens[path].fingerprint) in end.history
              && end.history[(path, end.reopens[path].fingerprint)] == end.reopens[path].archive
  {
    hide FinishPlan, Reopenable, TaskAt, Apply;
    if ReopenPlan(w, s, path, reason, session).ok {
      var chosen := ChooseJournal(w, s, path, reason, session);
      var j := chosen.journal;
      if chosen.Start? {
        FinishReadsCandidates(s, path, j);
        FinishLeaves(Apply(s, PutReopen(path, j)), path, j);
        WritesAppend(s, [PutReopen(path, j)], FinishPlan(s, path, j).writes);
        assert [PutReopen(path, j)][1..] == [];
      } else {
        FinishLeaves(s, path, j);
      }
    }
  }

  lemma ReviewIs(w: World, s: Store, path: Path, input: ReviewInput, reviewer: string, seen: Seen)
    ensures PlanOf(w, s, GateOps.Op.RecordReview(path, input, reviewer, seen)) == ReviewPlan(w, s, path, input, reviewer, seen)
  {
    hide ReviewPlan;
  }

  lemma IssueIs(w: World, s: Store, path: Path, input: IssueInput, revalidated: bool)
    ensures PlanOf(w, s, GateOps.Op.IssueGate(path, input, revalidated)) == IssuePlan(w, s, path, input, revalidated)
  {
    hide IssuePlan;
  }

  lemma ActivateIs(w: World, s: Store, a: Activation)
    ensures PlanOf(w, s, GateOps.Op.Activate(a)) == ActivatePlan(w, s, a)
  {
    hide ActivatePlan;
  }

  lemma ReviewableFacts(w: World, s: Store, path: Path, input: ReviewInput, reviewer: string)
    requires Reviewable(w, s, path, input, reviewer)
    ensures AllReceipts(s, path.0, input.receipts) && reviewer !in input.sessions && input.verdict == "PASS"
    ensures var r := ReviewOf(w, s, path, input, reviewer);
            r.receipts == input.receipts && r.attestation.reviewer == reviewer && r.attestation.sessions == input.sessions
  {
    hide ExactHead, PhaseActivated, ReceiptBindings, Definitions, HasReceipt, ResultFacts;
  }

  lemma CurrentFacts(w: World, s: Store, path: Path, r: Review)
    requires StillCurrent(w, s, path, r.commit)
    ensures r.commit == w.head && NoPendingReopen(s, path)
  {
    hide NoPendingReopen;
  }

  lemma IssuedFacts(w: World, s: Store, path: Path, revalidated: bool, input: IssueInput)
    requires Issuable(w, s, path, revalidated) && HasReview(s, path) && AllReceipts(s, path.0, s.reviews[path].receipts)
    requires Load(w.commits, w.head, path).Some? && (path.1 > 0 ==> (path.0, path.1 - 1) in s.gates)
    ensures var g, review := Issued(w, s, path, Load(w.commits, w.head, path).value, input), s.reviews[path];
            && g.commit == w.head && g.commit == review.commit && g.attestation == review.attestation
            && g.receipts == review.receipts && g.receiptFingerprints == review.receiptFingerprints && g.results == input.results
  {
    hide Loadable, HasReceipt;
  }

  lemma ActivationFactsOf(w: World, s: Store, a: Activation)
    requires ActivationValid(w, s, a)
    ensures (a.requirement, a.phase - 1) in s.gates
    ensures var g := s.gates[(a.requirement, a.phase - 1)]; a.predecessorFingerprint == OfGate(g) && a.predecessorCommit == g.commit
  {
    hide ChainValid, Load, IsAncestor;
  }
}
