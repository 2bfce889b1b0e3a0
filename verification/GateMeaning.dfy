/** What the gate checks come to, said of the records and files themselves: the
    exact conditions under which a gate, a chain of gates, an activation and a
    chain of definitions are accepted. */
module GateMeaning {
  import opened Utf8
  import opened Strings
  import opened GateRecords
  import opened GateChain
  import opened GateTheorems

  // ----- definitions -----

  /** The file at a path of a commit declares a phase: its own identity, a task,
      acceptance items and suites told apart by their ids, and the text of the
      plan the commit holds. */
  ghost predicate FileDeclares(c: Commits, revision: string, path: Path, d: Definition) {
    && revision in c && path in c[revision].definitions && c[revision].definitions[path].definition == d
    && d.schema == 1 && (d.requirement, d.phase) == path && d.phase >= 0 && IsRequirement(d.requirement) && !Blank(d.task)
    && |d.acceptance| > 0 && (forall i, j | 0 <= i < j < |d.acceptance| :: d.acceptance[i].id != d.acceptance[j].id)
    && |d.suites| > 0 && (forall i, j | 0 <= i < j < |d.suites| :: d.suites[i].id != d.suites[j].id)
    && (forall i | 0 <= i < |d.suites| && d.suites[i].kind == "github-attestation" :: d.phase >= 4)
    && d.planPath in c[revision].files && d.planFingerprint == OfPlan(c[revision].files[d.planPath])
  }

  lemma FileLoads(c: Commits, revision: string, path: Path, d: Definition)
    ensures FileDeclares(c, revision, path, d) <==> Load(c, revision, path) == Some(d)
  {
    hide IsRequirement, Blank;
    UniqueIds(d);
  }

  lemma UniqueIds(d: Definition)
    ensures Unique(AcceptanceIds(d)) <==> forall i, j | 0 <= i < j < |d.acceptance| :: d.acceptance[i].id != d.acceptance[j].id
    ensures Unique(SuiteIds(d)) <==> forall i, j | 0 <= i < j < |d.suites| :: d.suites[i].id != d.suites[j].id
  {
    var a, b := AcceptanceIds(d), SuiteIds(d);
    assert forall i | 0 <= i < |d.acceptance| :: a[i] == d.acceptance[i].id;
    assert forall i | 0 <= i < |d.suites| :: b[i] == d.suites[i].id;
    if Unique(a) {
      forall i, j | 0 <= i < j < |d.acceptance| ensures d.acceptance[i].id != d.acceptance[j].id { assert a[i] != a[j]; }
    }
    if Unique(b) {
      forall i, j | 0 <= i < j < |d.suites| ensures d.suites[i].id != d.suites[j].id { assert b[i] != b[j]; }
    }
  }

  /** The commit declares exactly these phases of a requirement, each naming the
      task after it, the last none, and no task twice. */
  ghost predicate Declares(c: Commits, revision: string, requirement: string, ds: seq<Definition>) {
    && revision in c
    && (forall k | k >= 0 && (requirement, k) in c[revision].definitions :: k < |ds|)
    && (forall k | 0 <= k < |ds| :: FileDeclares(c, revision, (requirement, k), ds[k]))
    && (forall k | 0 <= k < |ds| :: ds[k].next == if k + 1 == |ds| then None else Some(ds[k + 1].task))
    && (forall j, k | 0 <= j < k < |ds| :: ds[j].task != ds[k].task)
  }

  /** The phases declared are 0 to n-1, so their number is n. */
  lemma {:induction false} FirstPhases(phases: set<int>, n: nat)
    ensures (forall k :: k in phases <==> 0 <= k < n) ==> |phases| == n
    decreases n
  {
    if forall k :: k in phases <==> 0 <= k < n {
      if n == 0 {
        assert phases == {};
      } else {
        FirstPhases(phases - {n - 1}, n - 1);
      }
    }
  }

  /** definitions() answers with a chain exactly when the commit declares it. */
  lemma DefinitionsAre(c: Commits, revision: string, requirement: string, ds: seq<Definition>)
    ensures Definitions(c, revision, requirement) == Some(ds) <==> Declares(c, revision, requirement, ds)
  {
    hide Loadable, FileDeclares;
    if Declares(c, revision, requirement, ds) { DeclaredIsRead(c, revision, requirement, ds); }
    if Definitions(c, revision, requirement) == Some(ds) {
      DefinitionsFacts(c, revision, requirement);
      forall k | k >= 0 && (requirement, k) in c[revision].definitions ensures k < |ds| {
        assert k in Phases(c[revision], requirement);
      }
      forall k | 0 <= k < |ds| ensures FileDeclares(c, revision, (requirement, k), ds[k]) { FileLoads(c, revision, (requirement, k), ds[k]); }
    }
  }

  lemma NextOf(c: Commits, revision: string, requirement: string, ds: seq<Definition>, k: nat)
    requires Declares(c, revision, requirement, ds) && k < |ds|
    ensures ds[k].next == if k + 1 == |ds| then None else Some(ds[k + 1].task)
  {
    hide FileDeclares;
  }

  lemma PhasesDeclared(c: Commits, revision: string, requirement: string, ds: seq<Definition>)
    requires Declares(c, revision, requirement, ds)
    ensures forall k | 0 <= k < |ds| :: Loadable(c, revision, (requirement, k)) && DefinitionAt(c, revision, requirement, k) == ds[k]
    ensures (forall k :: k in Phases(c[revision], requirement) <==> 0 <= k < |ds|) && |Phases(c[revision], requirement)| == |ds|
  {
    hide Loadable, FileDeclares;
    var phases := Phases(c[revision], requirement);
    forall k | 0 <= k < |ds|
      ensures (requirement, k) in c[revision].definitions && Loadable(c, revision, (requirement, k))
              && DefinitionAt(c, revision, requirement, k) == ds[k]
    {
      FileLoads(c, revision, (requirement, k), ds[k]);
      LoadedFile(c, revision, (requirement, k), ds[k]);
    }
    assert forall k :: k in phases ==> (requirement, k) in c[revision].definitions;
    forall k ensures k in phases <==> 0 <= k < |ds| {
      if 0 <= k < |ds| { assert (requirement, k) in c[revision].definitions; }
    }
    FirstPhases(phases, |ds|);
  }

  lemma DeclaredIsRead(c: Commits, revision: string, requirement: string, ds: seq<Definition>)
    requires Declares(c, revision, requirement, ds)
    ensures Definitions(c, revision, requirement) == Some(ds)
  {
    hide Loadable, FileDeclares, Phases;
    PhasesDeclared(c, revision, requirement, ds);
    forall k | 0 <= k < |ds| ensures ds[k].next == if k + 1 == |ds| then None else Some(ds[k + 1].task) {
      NextOf(c, revision, requirement, ds, k);
    }
    var n := |Phases(c[revision], requirement)|;
    assert forall k | 0 <= k < n - 1 :: DefinitionAt(c, revision, requirement, k).next == Some(DefinitionAt(c, revision, requirement, k + 1).task);
    if n > 0 {
      NextOf(c, revision, requirement, ds, n - 1);
      assert DefinitionAt(c, revision, requirement, n - 1) == ds[n - 1];
      assert ds[n - 1].next == None;
    }
    assert forall j, k | 0 <= j < k < n :: DefinitionAt(c, revision, requirement, j).task != DefinitionAt(c, revision, requirement, k).task;
    assert forall k | k in Phases(c[revision], requirement) :: k < n;
    assert ChainOfDefinitions(c, revision, requirement);
    assert Definitions(c, revision, requirement).value == ds;
  }

  lemma LoadedFile(c: Commits, revision: string, path: Path, d: Definition)
    requires Load(c, revision, path) == Some(d)
    ensures revision in c && path in c[revision].definitions && path.1 >= 0 && Loadable(c, revision, path)
    ensures DefinitionAt(c, revision, path.0, path.1) == d
  {
  }

  // ----- one gate on its own -----

  /** The review is a pass by someone outside, of an implementation that is told
      by its sessions and runs. */
  ghost predicate OutsideReview(a: Attestation) {
    && a.schema == 1 && a.verdict == "PASS" && !Blank(a.reviewer) && a.sessions != [] && a.runs != []
    && (forall i | 0 <= i < |a.sessions| :: !Blank(a.sessions[i]) && a.sessions[i] != a.reviewer)
    && (forall i | 0 <= i < |a.runs| :: !Blank(a.runs[i]))
    && (forall i, j | 0 <= i < j < |a.sessions| :: a.sessions[i] != a.sessions[j])
    && (forall i, j | 0 <= i < j < |a.runs| :: a.runs[i] != a.runs[j])
  }

  /** There are results, told apart by their ids; each passed, and on evidence. */
  ghost predicate AllPass(g: Gate) {
    && |g.results| > 0
    && (forall i | 0 <= i < |g.results| ::
          var r := g.results[i];
          && r.schema == 1 && r.status == "PASS" && !Blank(r.id) && !Blank(r.summary)
          && |r.evidence| > 0 && forall j | 0 <= j < |r.evidence| :: !Blank(r.evidence[j]))
    && (forall i, j | 0 <= i < j < |g.results| :: g.results[i].id != g.results[j].id)
  }

  /** The record is well formed, says PASS of every item, and is not from the
      future by more than five minutes. */
  ghost predicate SaysPass(now: int, g: Gate) {
    && g.schema == 1 && g.phase >= 0 && IsRequirement(g.requirement) && IsSha(g.commit) && g.status == "PASS"
    && !Blank(g.task) && !Blank(g.summary) && !Blank(g.issuedBy)
    && !g.planFingerprint.Malformed? && !g.acceptanceFingerprint.Malformed?
    && AllPass(g) && OutsideReview(g.attestation)
    && |g.receipts| == |g.receiptFingerprints| > 0
    && (forall i | 0 <= i < |g.receipts| :: !Blank(g.receipts[i]) && !g.receiptFingerprints[i].Malformed?)
    && g.attestation.reviewedAt <= g.issuedAt <= now + 300
  }

  lemma PassIs(now: int, g: Gate)
    ensures PassFacts(now, g) <==> SaysPass(now, g)
  {
    hide IsRequirement, IsSha, Blank, ReviewFacts, ResultFacts, OutsideReview, AllPass;
    AllPassIs(g);
    ReviewIs(g.attestation);
    if forall d | d in g.receiptFingerprints :: IsFingerprint(d) {
      forall i | 0 <= i < |g.receiptFingerprints| ensures !g.receiptFingerprints[i].Malformed? {
        assert g.receiptFingerprints[i] in g.receiptFingerprints && IsFingerprint(g.receiptFingerprints[i]);
      }
    }
  }

  lemma ReviewIs(a: Attestation)
    ensures ReviewFacts(a) <==> OutsideReview(a)
  {
    hide Blank;
    assert a.reviewer !in a.sessions <==> forall i | 0 <= i < |a.sessions| :: a.sessions[i] != a.reviewer;
  }

  lemma AllPassIs(g: Gate)
    ensures ResultFacts(g) <==> AllPass(g)
  {
    hide Blank;
    var ids := ResultIds(g);
    assert |ids| == |g.results| && forall i | 0 <= i < |ids| :: ids[i] == g.results[i].id;
    if ResultFacts(g) {
      forall i | 0 <= i < |g.results|
        ensures var r := g.results[i];
                && r.schema == 1 && r.status == "PASS" && !Blank(r.id) && !Blank(r.summary)
                && |r.evidence| > 0 && forall j | 0 <= j < |r.evidence| :: !Blank(r.evidence[j])
      {
        assert g.results[i] in g.results && ids[i] == g.results[i].id;
      }
      forall i, j | 0 <= i < j < |g.results| ensures g.results[i].id != g.results[j].id { assert ids[i] != ids[j]; }
    }
  }

  /** No reopening of the phase is unfinished, and the journal of the last one,
      if there is any, is whole. */
  ghost predicate NotBeingReopened(s: Store, path: Path) {
    path in s.reopens ==>
      var j := s.reopens[path];
      && !j.pending && j.schema == 1 && j.fingerprint == OfArchive(j.archive)
      && (j.archive.requirement, j.archive.phase) == path
      && !Blank(j.archive.reason) && !Blank(j.archive.reopenedBy) && !Blank(j.archive.task)
  }

  lemma NoReopenIs(s: Store, path: Path)
    ensures NoPendingReopen(s, path) <==> NotBeingReopened(s, path)
  {
  }

  /** The gate answers what is declared of its phase: the task, the plan, and
      every acceptance item, none left out and none made up. */
  ghost predicate Meets(g: Gate, d: Definition) {
    && g.task == d.task && g.planFingerprint == d.planFingerprint && g.acceptanceFingerprint == OfAcceptance(d.acceptance)
    && (forall item | item in d.acceptance :: exists r | r in g.results :: r.id == item.id)
    && (forall r | r in g.results :: exists item | item in d.acceptance :: item.id == r.id)
  }

  lemma IdsOf(g: Gate, d: Definition, id: string)
    ensures id in ResultIds(g) <==> exists r | r in g.results :: r.id == id
    ensures id in AcceptanceIds(d) <==> exists item | item in d.acceptance :: item.id == id
  {
    assert |ResultIds(g)| == |g.results| && forall i | 0 <= i < |g.results| :: ResultIds(g)[i] == g.results[i].id;
    assert forall i | 0 <= i < |d.acceptance| :: AcceptanceIds(d)[i] == d.acceptance[i].id;
    if id in ResultIds(g) { var i :| 0 <= i < |g.results| && ResultIds(g)[i] == id; assert g.results[i] in g.results; }
    if id in AcceptanceIds(d) { var i :| 0 <= i < |d.acceptance| && AcceptanceIds(d)[i] == id; assert d.acceptance[i] in d.acceptance; }
    if exists r | r in g.results :: r.id == id {
      var r :| r in g.results && r.id == id;
      var i :| 0 <= i < |g.results| && g.results[i] == r;
      assert ResultIds(g)[i] == id;
    }
    if exists item | item in d.acceptance :: item.id == id {
      var item :| item in d.acceptance && item.id == id;
      var i :| 0 <= i < |d.acceptance| && d.acceptance[i] == item;
      assert AcceptanceIds(d)[i] == id;
    }
  }

  lemma MeetsIs(g: Gate, d: Definition)
    ensures Answers(g, d) <==> Meets(g, d)
  {
    hide AcceptanceIds, ResultIds;
    SameMembers(ResultIds(g), AcceptanceIds(d));
    forall id: string
      ensures id in ResultIds(g) <==> exists r | r in g.results :: r.id == id
      ensures id in AcceptanceIds(d) <==> exists item | item in d.acceptance :: item.id == id
    {
      IdsOf(g, d, id);
    }
    if Answers(g, d) {
      forall item | item in d.acceptance ensures exists r | r in g.results :: r.id == item.id { assert item.id in ResultIds(g); }
      forall r | r in g.results ensures exists item | item in d.acceptance :: item.id == r.id { assert r.id in AcceptanceIds(d); }
    }
  }

  lemma SameMembers(a: seq<string>, b: seq<string>)
    ensures (set x | x in a) == (set x | x in b) <==> forall x :: x in a <==> x in b
  {
    var p, q := set x | x in a, set x | x in b;
    if p == q {
      forall x ensures x in a <==> x in b { assert x in p <==> x in q; }
    }
  }

  // ----- the evidence -----

  /** A passing run as it is stored under an id of a requirement. */
  ghost predicate StoredRun(s: Store, requirement: string, id: string) {
    && (requirement, id) in s.receipts
    && var r := s.receipts[(requirement, id)];
    && r.schema == 1 && r.id == id && r.requirement == requirement && IsIdentifier(id) && IsRequirement(requirement)
    && IsSha(r.commit) && !r.suiteFingerprint.Malformed?
    && !Blank(r.run) && !Blank(r.session) && !Blank(r.suite) && !Blank(r.issuer) && !Blank(r.command)
    && !Blank(r.environment) && !Blank(r.summary)
    && r.startedAt <= r.completedAt && r.status == "PASS" && r.exitCode == 0
  }

  /** A run was of a suite as it is declared: its content and its command, by the
      runner of its kind, and with a link where it ran elsewhere. */
  ghost predicate RanSuite(r: Receipt, suite: Suite) {
    var kind := if suite.attested.None? || suite.attested == Some("") then suite.kind else suite.attested.value;
    && r.suite == suite.id && r.suiteFingerprint == OfSuite(suite) && r.command == suite.command
    && ((kind == "command" && r.issuer == "workspace-command-runner") || (kind == "github-actions" && r.issuer == "github-actions-api"))
    && (suite.kind == "github-actions" || suite.kind == "github-attestation" ==> r.url.Some? && r.url.value != "")
  }

  /** A receipt counts for a gate: it is the one cited, of the gate's own commit,
      in the gate's time, of a suite declared for the phase, told by the review,
      and not of the reviewer's session. From phase 4 on an outside authority
      vouches for it. */
  ghost predicate Counts(w: World, g: Gate, d: Definition, since: Option<int>, r: Receipt, fingerprint: Digest) {
    && fingerprint == OfReceipt(r) && r.commit == g.commit
    && (since.Some? ==> since.value <= r.startedAt) && r.completedAt <= g.attestation.reviewedAt && r.completedAt <= g.issuedAt
    && (exists suite | suite in d.suites :: RanSuite(r, suite) && (g.phase >= 4 ==> w.authority(r, suite, g.phase, g.commit)))
    && r.run in g.attestation.runs && r.session in g.attestation.sessions && r.session != g.attestation.reviewer
  }

  /** The receipt stored under one of the ids the gate cites. */
  ghost predicate Cites(s: Store, g: Gate, r: Receipt) {
    exists id | id in g.receipts :: (g.requirement, id) in s.receipts && s.receipts[(g.requirement, id)] == r
  }

  ghost predicate EachCounts(w: World, s: Store, g: Gate, d: Definition, since: Option<int>) {
    |g.receiptFingerprints| == |g.receipts|
    && forall i | 0 <= i < |g.receipts| ::
         (g.requirement, g.receipts[i]) in s.receipts
         && Counts(w, g, d, since, s.receipts[(g.requirement, g.receipts[i])], g.receiptFingerprints[i])
  }

  /** Every suite declared was run, and the runs and sessions the reviewer
      attested are all those of a receipt cited. */
  ghost predicate AllCovered(s: Store, g: Gate, d: Definition) {
    && (forall suite | suite in d.suites :: exists r :: Cites(s, g, r) && r.suite == suite.id)
    && (forall run | run in g.attestation.runs :: exists r :: Cites(s, g, r) && r.run == run)
    && (forall session | session in g.attestation.sessions :: exists r :: Cites(s, g, r) && r.session == session)
  }

  /** The ids cited differ, each is of a passing run that counts, together they
      cover everything, and every piece of evidence is one of them. */
  ghost predicate Evidenced(w: World, s: Store, g: Gate, d: Definition, since: Option<int>) {
    && (forall i, j | 0 <= i < j < |g.receipts| :: g.receipts[i] != g.receipts[j])
    && (forall i | 0 <= i < |g.receipts| :: StoredRun(s, g.requirement, g.receipts[i]))
    && EachCounts(w, s, g, d, since) && AllCovered(s, g, d)
    && (forall result, e | result in g.results && e in result.evidence :: e in g.receipts)
  }

  lemma StoredIs(s: Store, requirement: string, id: string)
    ensures HasReceipt(s, requirement, id) <==> StoredRun(s, requirement, id)
  {
    hide IsRequirement, IsSha, IsIdentifier, Blank;
    if (requirement, id) in s.receipts {
      var r := s.receipts[(requirement, id)];
      var texts := [r.run, r.session, r.suite, r.issuer, r.command, r.environment, r.summary];
      assert forall i | 0 <= i < |texts| :: texts[i] == match i
        case 0 => r.run case 1 => r.session case 2 => r.suite case 3 => r.issuer case 4 => r.command case 5 => r.environment case _ => r.summary;
      if NoneBlank(texts) {
        assert !Blank(texts[0]) && !Blank(texts[1]) && !Blank(texts[2]) && !Blank(texts[3]) && !Blank(texts[4]);
        assert !Blank(texts[5]) && !Blank(texts[6]);
      }
    }
  }

  lemma RanIs(r: Receipt, suite: Suite)
    ensures suite.id == r.suite && IssuedBySuite(r, suite) <==> RanSuite(r, suite)
  {
  }

  lemma Covers(rs: seq<Receipt>, f: Receipt -> string, ids: seq<string>)
    ensures (set r | r in rs :: f(r)) == (set x | x in ids)
            <==> (forall r | r in rs :: f(r) in ids) && (forall id | id in ids :: exists r :: r in rs && f(r) == id)
  {
    var told, asked := set r | r in rs :: f(r), set x | x in ids;
    if told == asked {
      forall r | r in rs ensures f(r) in ids { assert f(r) in told; }
      forall id | id in ids ensures exists r :: r in rs && f(r) == id { assert id in asked; }
    }
    if (forall r | r in rs :: f(r) in ids) && (forall id | id in ids :: exists r :: r in rs && f(r) == id) {
      forall id ensures id in told <==> id in asked {}
    }
  }

  lemma CitedIs(s: Store, g: Gate, r: Receipt)
    requires forall i | 0 <= i < |g.receipts| :: HasReceipt(s, g.requirement, g.receipts[i])
    ensures r in Cited(s, g) <==> Cites(s, g, r)
  {
    hide HasReceipt;
    HaveReceipts(s, g);
    var rs := Cited(s, g);
    if Cites(s, g, r) {
      var id :| id in g.receipts && (g.requirement, id) in s.receipts && s.receipts[(g.requirement, id)] == r;
      var i :| 0 <= i < |g.receipts| && g.receipts[i] == id;
      assert rs[i] == r;
    }
    if r in rs {
      var i :| 0 <= i < |rs| && rs[i] == r;
      assert g.receipts[i] in g.receipts;
    }
  }

  lemma HaveReceipts(s: Store, g: Gate)
    requires forall i | 0 <= i < |g.receipts| :: HasReceipt(s, g.requirement, g.receipts[i])
    ensures forall i | 0 <= i < |g.receipts| :: (g.requirement, g.receipts[i]) in s.receipts
    ensures |Cited(s, g)| == |g.receipts|
    ensures forall i | 0 <= i < |g.receipts| :: Cited(s, g)[i] == s.receipts[(g.requirement, g.receipts[i])]
  {
  }

  /** A comparison of sets says of each receipt cited, and of each member, where
      it comes from. */
  lemma ToldBy(s: Store, g: Gate, f: Receipt -> string, ids: seq<string>)
    requires forall i | 0 <= i < |g.receipts| :: HasReceipt(s, g.requirement, g.receipts[i])
    ensures (set r | r in Cited(s, g) :: f(r)) == (set x | x in ids)
            <==> (forall r | Cites(s, g, r) :: f(r) in ids) && (forall id | id in ids :: exists r :: Cites(s, g, r) && f(r) == id)
  {
    hide HasReceipt, Cited, Cites;
    var rs := Cited(s, g);
    Covers(rs, f, ids);
    forall r ensures r in rs <==> Cites(s, g, r) { CitedIs(s, g, r); }
    if forall id | id in ids :: exists r :: r in rs && f(r) == id {
      forall id | id in ids ensures exists r :: Cites(s, g, r) && f(r) == id {
        var r :| r in rs && f(r) == id;
        assert Cites(s, g, r);
      }
    }
    if forall id | id in ids :: exists r :: Cites(s, g, r) && f(r) == id {
      forall id | id in ids ensures exists r :: r in rs && f(r) == id {
        var r :| Cites(s, g, r) && f(r) == id;
        assert r in rs;
      }
    }
  }

  ghost predicate RunsTold(s: Store, g: Gate) {
    && (forall r | Cites(s, g, r) :: r.run in g.attestation.runs)
    && (forall run | run in g.attestation.runs :: exists r :: Cites(s, g, r) && r.run == run)
  }

  ghost predicate SessionsTold(s: Store, g: Gate) {
    && (forall r | Cites(s, g, r) :: r.session in g.attestation.sessions)
    && (forall session | session in g.attestation.sessions :: exists r :: Cites(s, g, r) && r.session == session)
  }

  ghost predicate SuitesTold(s: Store, g: Gate, d: Definition) {
    && (forall r | Cites(s, g, r) :: r.suite in SuiteIds(d))
    && (forall suite | suite in d.suites :: exists r :: Cites(s, g, r) && r.suite == suite.id)
  }

  ghost predicate NoneReviewed(s: Store, g: Gate) {
    forall r | Cites(s, g, r) :: r.session != g.attestation.reviewer
  }

  lemma AllTold(s: Store, g: Gate, d: Definition)
    ensures SuitesTold(s, g, d) && RunsTold(s, g) && SessionsTold(s, g) && NoneReviewed(s, g) <==> EachTold(s, g, d) && AllCovered(s, g, d)
  {
    hide Cites, SuiteIds;
  }

  lemma RunsAreTold(s: Store, g: Gate)
    requires forall i | 0 <= i < |g.receipts| :: HasReceipt(s, g.requirement, g.receipts[i])
    ensures (set r | r in Cited(s, g) :: r.run) == (set x | x in g.attestation.runs)
            <==> RunsTold(s, g)
  {
    hide HasReceipt, Cited, Cites;
    var f := (r: Receipt) => r.run;
    ToldBy(s, g, f, g.attestation.runs);
    assert (set r | r in Cited(s, g) :: f(r)) == set r | r in Cited(s, g) :: r.run;
  }

  lemma SessionsAreTold(s: Store, g: Gate)
    requires forall i | 0 <= i < |g.receipts| :: HasReceipt(s, g.requirement, g.receipts[i])
    ensures (set r | r in Cited(s, g) :: r.session) == (set x | x in g.attestation.sessions)
            <==> SessionsTold(s, g)
  {
    hide HasReceipt, Cited, Cites;
    var f := (r: Receipt) => r.session;
    ToldBy(s, g, f, g.attestation.sessions);
    assert (set r | r in Cited(s, g) :: f(r)) == set r | r in Cited(s, g) :: r.session;
  }

  lemma SuitesAreTold(s: Store, g: Gate, d: Definition)
    requires forall i | 0 <= i < |g.receipts| :: HasReceipt(s, g.requirement, g.receipts[i])
    ensures (set r | r in Cited(s, g) :: r.suite) == (set x | x in SuiteIds(d))
            <==> SuitesTold(s, g, d)
  {
    hide HasReceipt, Cited, Cites, SuiteIds;
    var f := (r: Receipt) => r.suite;
    ToldBy(s, g, f, SuiteIds(d));
    assert (set r | r in Cited(s, g) :: f(r)) == set r | r in Cited(s, g) :: r.suite;
    forall id ensures id in SuiteIds(d) <==> exists suite :: suite in d.suites && suite.id == id { SuiteIdsAre(d, id); }
    assert forall r: Receipt :: f(r) == r.suite;
    if forall id | id in SuiteIds(d) :: exists r :: Cites(s, g, r) && f(r) == id {
      forall suite | suite in d.suites ensures exists r :: Cites(s, g, r) && r.suite == suite.id {
        assert suite.id in SuiteIds(d);
        var r :| Cites(s, g, r) && f(r) == suite.id;
      }
    }
    if forall suite | suite in d.suites :: exists r :: Cites(s, g, r) && r.suite == suite.id {
      forall id | id in SuiteIds(d) ensures exists r :: Cites(s, g, r) && f(r) == id {
        var suite :| suite in d.suites && suite.id == id;
        var r :| Cites(s, g, r) && r.suite == suite.id;
        assert f(r) == id;
      }
    }
  }

  lemma SuiteIdsAre(d: Definition, id: string)
    ensures id in SuiteIds(d) <==> exists suite :: suite in d.suites && suite.id == id
  {
    assert forall i | 0 <= i < |d.suites| :: SuiteIds(d)[i] == d.suites[i].id;
    if suite :| suite in d.suites && suite.id == id {
      var i :| 0 <= i < |d.suites| && d.suites[i] == suite;
      assert SuiteIds(d)[i] == id;
    }
    if id in SuiteIds(d) {
      var i :| 0 <= i < |SuiteIds(d)| && SuiteIds(d)[i] == id;
      assert d.suites[i] in d.suites;
    }
  }

  /** A receipt passes the checks and is among the attested exactly when it
      counts. */
  lemma CountsIs(w: World, g: Gate, d: Definition, since: Option<int>, r: Receipt, fingerprint: Digest)
    ensures Counts(w, g, d, since, r, fingerprint)
            <==> && ReceiptBinds(w, g, d, since, r, fingerprint)
                 && r.run in g.attestation.runs && r.session in g.attestation.sessions && r.session != g.attestation.reviewer
    ensures Counts(w, g, d, since, r, fingerprint) ==> r.suite in SuiteIds(d)
  {
    hide SuiteIds, RanSuite, IssuedBySuite;
    forall suite: Suite ensures suite.id == r.suite && IssuedBySuite(r, suite) <==> RanSuite(r, suite) { RanIs(r, suite); }
    if ReceiptBinds(w, g, d, since, r, fingerprint) {
      var suite :| suite in d.suites && suite.id == r.suite && IssuedBySuite(r, suite) && (g.phase >= 4 ==> w.authority(r, suite, g.phase, g.commit));
      assert RanSuite(r, suite);
    }
    if Counts(w, g, d, since, r, fingerprint) {
      var suite :| suite in d.suites && RanSuite(r, suite) && (g.phase >= 4 ==> w.authority(r, suite, g.phase, g.commit));
      assert suite.id == r.suite && IssuedBySuite(r, suite);
      SuiteIdsAre(d, r.suite);
    }
  }

  /** What is compared of the receipts cited, as the code does it. */
  ghost predicate Compared(w: World, s: Store, g: Gate, d: Definition, since: Option<int>)
    requires |g.receiptFingerprints| == |g.receipts| && forall i | 0 <= i < |g.receipts| :: HasReceipt(s, g.requirement, g.receipts[i])
  {
    var rs := Cited(s, g);
    && (forall i | 0 <= i < |rs| :: ReceiptBinds(w, g, d, since, rs[i], g.receiptFingerprints[i]))
    && (set r | r in rs :: r.suite) == (set x | x in SuiteIds(d))
    && (set r | r in rs :: r.run) == (set x | x in g.attestation.runs)
    && (set r | r in rs :: r.session) == (set x | x in g.attestation.sessions)
    && (forall r | r in rs :: r.session != g.attestation.reviewer)
  }

  ghost predicate EachTold(s: Store, g: Gate, d: Definition) {
    forall r | Cites(s, g, r) ::
      r.suite in SuiteIds(d) && r.run in g.attestation.runs && r.session in g.attestation.sessions && r.session != g.attestation.reviewer
  }

  lemma ComparedTells(w: World, s: Store, g: Gate, d: Definition, since: Option<int>)
    requires |g.receiptFingerprints| == |g.receipts| && forall i | 0 <= i < |g.receipts| :: HasReceipt(s, g.requirement, g.receipts[i])
    ensures Compared(w, s, g, d, since)
            <==> && (forall i | 0 <= i < |Cited(s, g)| :: ReceiptBinds(w, g, d, since, Cited(s, g)[i], g.receiptFingerprints[i]))
                 && EachTold(s, g, d) && AllCovered(s, g, d)
  {
    hide HasReceipt, ReceiptBinds, Cited, SuiteIds, RunsTold, SessionsTold, SuitesTold, NoneReviewed, EachTold, AllCovered;
    RunsAreTold(s, g);
    SessionsAreTold(s, g);
    SuitesAreTold(s, g, d);
    NotReviewers(s, g);
    AllTold(s, g, d);
  }

  lemma EachIs(w: World, s: Store, g: Gate, d: Definition, since: Option<int>)
    requires |g.receiptFingerprints| == |g.receipts| && forall i | 0 <= i < |g.receipts| :: HasReceipt(s, g.requirement, g.receipts[i])
    ensures EachCounts(w, s, g, d, since)
            <==> && (forall i | 0 <= i < |Cited(s, g)| :: ReceiptBinds(w, g, d, since, Cited(s, g)[i], g.receiptFingerprints[i]))
                 && EachTold(s, g, d)
  {
    hide HasReceipt, Counts, ReceiptBinds, Cited, Cites, SuiteIds;
    var rs := Cited(s, g);
    HaveReceipts(s, g);
    forall r ensures r in rs <==> Cites(s, g, r) { CitedIs(s, g, r); }
    forall i | 0 <= i < |rs|
      ensures Counts(w, g, d, since, rs[i], g.receiptFingerprints[i])
              <==> && ReceiptBinds(w, g, d, since, rs[i], g.receiptFingerprints[i])
                   && rs[i].run in g.attestation.runs && rs[i].session in g.attestation.sessions && rs[i].session != g.attestation.reviewer
      ensures Counts(w, g, d, since, rs[i], g.receiptFingerprints[i]) ==> rs[i].suite in SuiteIds(d)
    {
      CountsIs(w, g, d, since, rs[i], g.receiptFingerprints[i]);
    }
    assert forall i | 0 <= i < |rs| :: Cites(s, g, rs[i]);
    if EachCounts(w, s, g, d, since) {
      forall r | Cites(s, g, r)
        ensures r.suite in SuiteIds(d) && r.run in g.attestation.runs && r.session in g.attestation.sessions && r.session != g.attestation.reviewer
      {
        var i :| 0 <= i < |rs| && rs[i] == r;
        assert Counts(w, g, d, since, rs[i], g.receiptFingerprints[i]);
      }
    }
  }

  /** The checks of the receipts accept exactly the gates that have the evidence. */
  lemma EvidenceIs(w: World, s: Store, g: Gate, d: Definition, since: Option<int>)
    ensures ReceiptBindings(w, s, g, d, since) <==> Evidenced(w, s, g, d, since)
  {
    hide HasReceipt, StoredRun, EachCounts, AllCovered, EachTold, ReceiptBinds, Cited, SuiteIds;
    forall i | 0 <= i < |g.receipts| ensures HasReceipt(s, g.requirement, g.receipts[i]) <==> StoredRun(s, g.requirement, g.receipts[i]) {
      StoredIs(s, g.requirement, g.receipts[i]);
    }
    if |g.receiptFingerprints| == |g.receipts| {
      if forall i | 0 <= i < |g.receipts| :: HasReceipt(s, g.requirement, g.receipts[i]) {
        EachIs(w, s, g, d, since);
        ComparedTells(w, s, g, d, since);
      }
    } else {
      assert !EachCounts(w, s, g, d, since) by { NotEach(w, s, g, d, since); }
    }
  }

  lemma NotEach(w: World, s: Store, g: Gate, d: Definition, since: Option<int>)
    requires |g.receiptFingerprints| != |g.receipts|
    ensures !EachCounts(w, s, g, d, since)
  {
  }

  lemma NotReviewers(s: Store, g: Gate)
    requires forall i | 0 <= i < |g.receipts| :: HasReceipt(s, g.requirement, g.receipts[i])
    ensures (forall r | r in Cited(s, g) :: r.session != g.attestation.reviewer)
            <==> NoneReviewed(s, g)
  {
    hide HasReceipt, Cited, Cites;
    forall r ensures r in Cited(s, g) <==> Cites(s, g, r) { CitedIs(s, g, r); }
  }

  // ----- a gate in its chain -----

  /** The definition file of the gate's phase is word for word the same at HEAD as
      on the gate's commit, and HEAD still declares the phase by it. */
  ghost predicate Untouched(c: Commits, head: string, g: Gate) {
    var path := (g.requirement, g.phase);
    && g.commit in c && head in c && path in c[g.commit].definitions && path in c[head].definitions
    && c[head].definitions[path] == c[g.commit].definitions[path]
    && FileDeclares(c, head, path, c[head].definitions[path].definition)
  }

  lemma UntouchedIs(c: Commits, head: string, g: Gate)
    ensures Frozen(c, head, g) <==> Untouched(c, head, g)
  {
    hide Loadable, FileDeclares;
    var path := (g.requirement, g.phase);
    if head in c && path in c[head].definitions {
      FileLoads(c, head, path, c[head].definitions[path].definition);
    }
  }

  /** The gate carries the phase, the commit and the content of the one below, and
      its commit comes from that one. */
  ghost predicate BuiltOn(c: Commits, g: Gate, below: Gate) {
    && g.previousPhase == Some(below.phase) && g.previousCommit == Some(below.commit) && g.previousFingerprint == Some(OfGate(below))
    && Reached(c, below.commit, g.commit)
  }

  lemma BuiltOnIs(c: Commits, g: Gate, below: Gate)
    ensures Succeeds(c, g, below) <==> BuiltOn(c, g, below)
  {
    hide IsAncestor, Reached;
    AncestryIsWalk(c, below.commit, g.commit);
  }

  ghost predicate NextIs(c: Commits, revision: string, path: Path, task: string) {
    exists d :: FileDeclares(c, revision, path, d) && d.next == Some(task)
  }

  /** The activation opens its phase on the gate right below: with the task which
      that gate's commit declares next, not before the gate was issued, not from
      the future, and only while HEAD comes from that commit. */
  ghost predicate Opens(w: World, a: Activation, below: Gate) {
    && a.schema == 1 && IsRequirement(a.requirement) && a.phase >= 1 && a.predecessorPhase == a.phase - 1
    && IsSha(a.predecessorCommit) && a.predecessorCommit == below.commit && a.predecessorFingerprint == OfGate(below)
    && !Blank(a.session) && !Blank(a.activatedBy) && below.issuedAt <= a.activatedAt <= w.now + 300
    && NextIs(w.commits, below.commit, (a.requirement, a.phase - 1), a.task)
    && IsSha(w.head) && (w.head == below.commit || Reached(w.commits, below.commit, w.head))
  }

  lemma OpensIs(w: World, a: Activation, below: Gate)
    ensures ActivationFacts(w.now, a) && ActivationBinds(w, a, below) <==> Opens(w, a, below)
  {
    hide IsAncestor, Reached, FileDeclares, Load, IsRequirement, IsSha, Blank;
    AncestryIsWalk(w.commits, below.commit, w.head);
    var path := (a.requirement, a.phase - 1);
    var d := Load(w.commits, below.commit, path);
    forall d' ensures FileDeclares(w.commits, below.commit, path, d') <==> d == Some(d') { FileLoads(w.commits, below.commit, path, d'); }
    if d.Some? { assert FileDeclares(w.commits, below.commit, path, d.value); }
  }

  /** The gate's commit declares its phase, and the gate meets what is declared. */
  ghost predicate MeetsDeclared(c: Commits, g: Gate, ds: seq<Definition>) {
    Declares(c, g.commit, g.requirement, ds) && 0 <= g.phase < |ds| && Meets(g, ds[g.phase])
  }

  lemma DeclaredIs(c: Commits, g: Gate, ds: seq<Definition>)
    ensures MeetsDeclared(c, g, ds) <==> Declared(c, g) && Definitions(c, g.commit, g.requirement) == Some(ds)
    ensures MeetsDeclared(c, g, ds) ==> 0 <= g.phase < |ds| && DeclaredFor(c, g) == ds[g.phase]
  {
    hide Definitions, Declares, Answers, Meets;
    DefinitionsAre(c, g.commit, g.requirement, ds);
    if 0 <= g.phase < |ds| { MeetsIs(g, ds[g.phase]); }
  }

  /** The gate right below, at its own path. */
  ghost predicate IsBelow(s: Store, g: Gate, below: Gate) {
    var path := (g.requirement, g.phase - 1);
    path in s.gates && s.gates[path] == below && (below.requirement, below.phase) == path
  }

  /** The activation of a phase, at its own path. */
  ghost predicate IsActivation(s: Store, path: Path, a: Activation) {
    path in s.activations && s.activations[path] == a && (a.requirement, a.phase) == path
  }

  /** The first gate stands alone. */
  ghost predicate FirstStands(w: World, s: Store, g: Gate, ds: seq<Definition>) {
    && MeetsDeclared(w.commits, g, ds) && g.phase == 0
    && g.previousPhase == None && g.previousCommit == None && g.previousFingerprint == None
    && Evidenced(w, s, g, ds[0], None)
  }

  /** A later one stands on the gate below, by an activation for its own task. */
  ghost predicate LaterStands(w: World, s: Store, g: Gate, ds: seq<Definition>, below: Gate, a: Activation) {
    && MeetsDeclared(w.commits, g, ds) && g.phase > 0
    && IsBelow(s, g, below) && BuiltOn(w.commits, g, below)
    && IsActivation(s, (g.requirement, g.phase), a) && Opens(w, a, below) && a.task == ds[g.phase].task
    && Evidenced(w, s, g, ds[g.phase], Some(a.activatedAt))
  }

  ghost predicate Grounded(w: World, s: Store, g: Gate) {
    || (exists ds :: FirstStands(w, s, g, ds))
    || (exists ds, below, a :: LaterStands(w, s, g, ds, below, a))
  }

  /** A gate of the past: not being reopened, passed, and still as declared. */
  ghost predicate Stands(w: World, s: Store, g: Gate) {
    NotBeingReopened(s, (g.requirement, g.phase)) && SaysPass(w.now, g) && Untouched(w.commits, w.head, g) && Grounded(w, s, g)
  }

  /** What the code checks of a gate's place in the chain. */
  ghost predicate Placed(w: World, s: Store, g: Gate) {
    && Declared(w.commits, g) && g.phase >= 0
    && if g.phase == 0 then ReceiptsBind(w, s, g, None) && NoLinks(g)
       else
         && HasPrevious(s, g) && Succeeds(w.commits, g, Previous(s, g)) && HasActivation(s, (g.requirement, g.phase))
         && var a := s.activations[(g.requirement, g.phase)];
         && ActivationStands(w, s, a) && ForTask(w.commits, g, a) && ReceiptsBind(w, s, g, Some(a.activatedAt))
  }

  lemma PlacedIs(w: World, s: Store, g: Gate)
    ensures Placed(w, s, g) <==> Grounded(w, s, g)
  {
    hide Declared, DeclaredFor, Succeeds, BuiltOn, Opens, ActivationFacts, ActivationBinds, ReceiptBindings, Evidenced, MeetsDeclared, Definitions;
    if Placed(w, s, g) {
      assert Definitions(w.commits, g.commit, g.requirement).Some? by { SomeDeclared(w.commits, g); }
      var ds := Definitions(w.commits, g.commit, g.requirement).value;
      DeclaredIs(w.commits, g, ds);
      if g.phase == 0 { FirstIs(w, s, g, ds); } else { LaterIs(w, s, g, ds, Previous(s, g), s.activations[(g.requirement, g.phase)]); }
    }
    if ds :| FirstStands(w, s, g, ds) { FirstIs(w, s, g, ds); }
    if ds, below, a :| LaterStands(w, s, g, ds, below, a) { LaterIs(w, s, g, ds, below, a); }
  }

  lemma FirstIs(w: World, s: Store, g: Gate, ds: seq<Definition>)
    requires g.phase == 0 && MeetsDeclared(w.commits, g, ds)
    ensures Placed(w, s, g) <==> FirstStands(w, s, g, ds)
  {
    hide Declared, DeclaredFor, ReceiptBindings, Evidenced, MeetsDeclared, Definitions;
    DeclaredIs(w.commits, g, ds);
    EvidenceIs(w, s, g, ds[0], None);
  }

  lemma LaterIs(w: World, s: Store, g: Gate, ds: seq<Definition>, below: Gate, a: Activation)
    requires g.phase > 0 && MeetsDeclared(w.commits, g, ds)
    requires IsBelow(s, g, below) && IsActivation(s, (g.requirement, g.phase), a)
    ensures Placed(w, s, g) <==> LaterStands(w, s, g, ds, below, a)
  {
    hide Declared, DeclaredFor, Succeeds, BuiltOn, Opens, ActivationFacts, ActivationBinds, ReceiptBindings, Evidenced, MeetsDeclared, Definitions;
    DeclaredIs(w.commits, g, ds);
    EvidenceIs(w, s, g, ds[g.phase], Some(a.activatedAt));
    BuiltOnIs(w.commits, g, below);
    OpensIs(w, a, below);
    PredecessorPhase(w, a);
  }

  lemma SomeDeclared(c: Commits, g: Gate)
    requires Declared(c, g)
    ensures Definitions(c, g.commit, g.requirement).Some?
  {
    hide Definitions;
  }

  lemma PredecessorPhase(w: World, a: Activation)
    ensures ActivationFacts(w.now, a) ==> a.predecessorPhase == a.phase - 1
  {
  }

  lemma LinkIs(w: World, s: Store, g: Gate)
    ensures Link(w, s, g) && g.phase >= 0 <==> Stands(w, s, g)
  {
    hide NoPendingReopen, NotBeingReopened, PassFacts, SaysPass, Frozen, Untouched, Declared, ReceiptsBind, NoLinks, HasPrevious, Succeeds,
      HasActivation, ActivationStands, ForTask, Grounded;
    NoReopenIs(s, (g.requirement, g.phase));
    PassIs(w.now, g);
    UntouchedIs(w.commits, w.head, g);
    PlacedIs(w, s, g);
    assert Link(w, s, g) <==> NoPendingReopen(s, (g.requirement, g.phase)) && PassFacts(w.now, g) && Frozen(w.commits, w.head, g) && Placed(w, s, g);
  }

  // ----- the verdicts -----

  /** A chain of gates: one at its own path for every phase below, and each of
      them stands. */
  ghost predicate ChainStands(w: World, s: Store, g: Gate) {
    && g.phase >= 0 && Stands(w, s, g)
    && forall k | 0 <= k < g.phase :: StandsAt(w, s, (g.requirement, k))
  }

  /** The gate at a path is of that path and stands. */
  ghost predicate StandsAt(w: World, s: Store, path: Path) {
    path in s.gates && (s.gates[path].requirement, s.gates[path].phase) == path && Stands(w, s, s.gates[path])
  }

  /** The recursion through gates and activations accepts a gate exactly when
      its chain stands: of every phase the definition, the evidence, the place on
      the gate below and the activation are as said above. */
  lemma ChainIs(w: World, s: Store, g: Gate)
    ensures ChainValid(w, s, g) <==> ChainStands(w, s, g)
  {
    hide ChainValid, Link, Stands;
    ChainIsFlat(w, s, g);
    if FlatValid(w, s, g) {
      assert Link(w, s, GateAt(s, g, g.phase));
      LinkIs(w, s, g);
      forall k | 0 <= k < g.phase ensures StandsAt(w, s, (g.requirement, k)) {
        assert Link(w, s, GateAt(s, g, k));
        LinkIs(w, s, GateAt(s, g, k));
      }
    }
    if ChainStands(w, s, g) {
      LinkIs(w, s, g);
      assert Complete(s, g) by { AllThere(w, s, g); }
      forall k | 0 <= k < g.phase ensures Link(w, s, GateAt(s, g, k)) {
        assert StandsAt(w, s, (g.requirement, k));
        LinkIs(w, s, s.gates[(g.requirement, k)]);
      }
      assert forall k | 0 <= k <= g.phase :: Link(w, s, GateAt(s, g, k));
    }
  }

  lemma AllThere(w: World, s: Store, g: Gate)
    requires ChainStands(w, s, g)
    ensures Complete(s, g)
  {
    hide Stands;
    forall k | 0 <= k < g.phase
      ensures (g.requirement, k) in s.gates && s.gates[(g.requirement, k)].requirement == g.requirement && s.gates[(g.requirement, k)].phase == k
    {
      assert StandsAt(w, s, (g.requirement, k));
    }
  }

  /** An activation is accepted exactly when it opens its phase on the gate at the
      path below, and that gate's chain stands. */
  lemma ActivationIs(w: World, s: Store, a: Activation)
    ensures ActivationValid(w, s, a)
            <==> && (a.requirement, a.phase - 1) in s.gates
                 && Opens(w, a, s.gates[(a.requirement, a.phase - 1)]) && ChainStands(w, s, s.gates[(a.requirement, a.phase - 1)])
  {
    hide ChainValid, ActivationFacts, ActivationBinds, Opens, ChainStands;
    PredecessorPhase(w, a);
    if (a.requirement, a.phase - 1) in s.gates {
      var below := s.gates[(a.requirement, a.phase - 1)];
      OpensIs(w, a, below);
      ChainIs(w, s, below);
    }
  }

  /** Of the requirement's own clean checkout, at HEAD, and not being reopened. */
  ghost predicate AtCleanHead(w: World, s: Store, g: Gate) {
    NotBeingReopened(s, (g.requirement, g.phase)) && w.inPlace && w.clean && IsSha(w.head) && g.commit == w.head
  }

  ghost predicate CurrentFirst(w: World, s: Store, g: Gate, ds: seq<Definition>) {
    SaysPass(w.now, g) && AtCleanHead(w, s, g) && FirstStands(w, s, g, ds)
  }

  /** A later phase's task is the requirement's current one, and the chain below
      stands. */
  ghost predicate CurrentLater(w: World, s: Store, g: Gate, ds: seq<Definition>, below: Gate, a: Activation) {
    && SaysPass(w.now, g) && AtCleanHead(w, s, g)
    && LaterStands(w, s, g, ds, below, a) && ChainStands(w, s, below)
    && g.requirement in s.meta && s.meta[g.requirement].task == Some(a.task)
  }

  /** A gate is accepted as current, to be written or read back, exactly when it
      is of the first phase and stands there, or stands on the chain below it. */
  lemma CurrentIs(w: World, s: Store, g: Gate)
    ensures GateValid(w, s, g)
            <==> || (exists ds :: CurrentFirst(w, s, g, ds))
                 || (exists ds, below, a :: CurrentLater(w, s, g, ds, below, a))
  {
    hide NoPendingReopen, NotBeingReopened, PassFacts, SaysPass, Declared, DeclaredFor, ChainValid, ChainStands, Succeeds, BuiltOn, Opens,
      ActivationFacts, ActivationBinds, ReceiptBindings, Evidenced, MeetsDeclared, Definitions, IsSha, ActivationValid, ExactHead, AtCleanHead;
    PassIs(w.now, g);
    HeadIs(w, s, g);
    if GateValid(w, s, g) {
      SomeDeclared(w.commits, g);
      var ds := Definitions(w.commits, g.commit, g.requirement).value;
      DeclaredIs(w.commits, g, ds);
      if g.phase == 0 {
        FirstIs(w, s, g, ds);
        assert CurrentFirst(w, s, g, ds);
      } else {
        var a := s.activations[(g.requirement, g.phase)];
        CurrentLaterIs(w, s, g, ds, Previous(s, g), a);
        assert CurrentLater(w, s, g, ds, Previous(s, g), a);
      }
    }
    if ds :| CurrentFirst(w, s, g, ds) { FirstIs(w, s, g, ds); }
    if ds, below, a :| CurrentLater(w, s, g, ds, below, a) { CurrentLaterIs(w, s, g, ds, below, a); }
  }

  lemma HeadIs(w: World, s: Store, g: Gate)
    ensures ExactHead(w, s, g) <==> AtCleanHead(w, s, g)
  {
    hide NoPendingReopen, NotBeingReopened, IsSha;
    NoReopenIs(s, (g.requirement, g.phase));
  }

  lemma CurrentLaterIs(w: World, s: Store, g: Gate, ds: seq<Definition>, below: Gate, a: Activation)
    requires g.phase > 0 && MeetsDeclared(w.commits, g, ds)
    requires IsBelow(s, g, below) && IsActivation(s, (g.requirement, g.phase), a)
    ensures GateValid(w, s, g) <==> CurrentLater(w, s, g, ds, below, a)
  {
    hide PassFacts, SaysPass, Declared, DeclaredFor, ChainValid, ChainStands, Succeeds, BuiltOn, Opens, ActivationFacts, ActivationBinds,
      ReceiptBindings, Evidenced, MeetsDeclared, Definitions, ExactHead, AtCleanHead, ActivationValid;
    PassIs(w.now, g);
    HeadIs(w, s, g);
    LaterIs(w, s, g, ds, below, a);
    ActivationIs(w, s, a);
    ChainIs(w, s, below);
    DeclaredIs(w.commits, g, ds);
    EvidenceIs(w, s, g, ds[g.phase], Some(a.activatedAt));
    BuiltOnIs(w.commits, g, below);
  }

  /** A gate accepted as current is accepted as part of a chain as well. */
  lemma CurrentStands(w: World, s: Store, g: Gate)
    requires GateValid(w, s, g)
    ensures ChainStands(w, s, g)
  {
    hide GateValid, NotBeingReopened, SaysPass, Evidenced, BuiltOn, Opens, Meets, FileDeclares, IsSha, Stands;
    CurrentIs(w, s, g);
    if ds :| CurrentFirst(w, s, g, ds) {
      HeadStands(w, s, g, ds);
    } else {
      var ds, below, a :| CurrentLater(w, s, g, ds, below, a);
      HeadStands(w, s, g, ds);
      forall k | 0 <= k < g.phase ensures StandsAt(w, s, (g.requirement, k)) {
        if k == below.phase { assert Stands(w, s, below); } else { assert StandsAt(w, s, (below.requirement, k)); }
      }
    }
  }

  lemma HeadStands(w: World, s: Store, g: Gate, ds: seq<Definition>)
    requires SaysPass(w.now, g) && AtCleanHead(w, s, g) && Grounded(w, s, g) && MeetsDeclared(w.commits, g, ds)
    ensures Stands(w, s, g)
  {
    hide SaysPass, NotBeingReopened, Meets, IsSha, Grounded;
    assert FileDeclares(w.commits, g.commit, (g.requirement, g.phase), ds[g.phase]);
  }
}
