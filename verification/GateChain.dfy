/** Validating a gate: its own facts, its receipts, its activation, and the
    whole chain of predecessors, which the code checks by a recursion that runs
    through gates and activations in turn. */
module GateChain {
  import opened Utf8
  import opened Strings
  import opened GateRecords

  // ----- checks that read one record -----

  predicate ReceiptFacts(r: Receipt) {
    && r.schema == SCHEMA && IsIdentifier(r.id) && IsRequirement(r.requirement) && IsSha(r.commit)
    && IsFingerprint(r.suiteFingerprint)
    && NoneBlank([r.run, r.session, r.suite, r.issuer, r.command, r.environment, r.summary])
    && r.startedAt <= r.completedAt
    && r.status == "PASS" && r.exitCode == 0
  }

  predicate ReviewFacts(a: Attestation) {
    && a.schema == SCHEMA && a.verdict == "PASS" && !Blank(a.reviewer)
    && a.sessions != [] && NoneBlank(a.sessions) && a.reviewer !in a.sessions && Unique(a.sessions)
    && a.runs != [] && NoneBlank(a.runs) && Unique(a.runs)
  }

  function ResultIds(g: Gate): (ids: seq<string>) {
    seq(|g.results|, i requires 0 <= i < |g.results| => g.results[i].id)
  }

  predicate ResultFacts(g: Gate) {
    && g.results != [] && NoneBlank(ResultIds(g)) && Unique(ResultIds(g))
    && forall r | r in g.results ::
         r.status == "PASS" && r.schema == SCHEMA && !Blank(r.summary) && r.evidence != [] && NoneBlank(r.evidence)
  }

  /** _validate_pass_facts */
  predicate PassFacts(now: int, g: Gate) {
    && g.schema == SCHEMA && g.phase >= 0 && IsRequirement(g.requirement) && !Blank(g.task)
    && !Blank(g.summary) && !Blank(g.issuedBy) && g.issuedAt <= now + CLOCK_SKEW
    && IsSha(g.commit) && IsFingerprint(g.planFingerprint) && IsFingerprint(g.acceptanceFingerprint)
    && g.status == "PASS" && ResultFacts(g)
    && g.receipts != [] && NoneBlank(g.receipts) && |g.receiptFingerprints| == |g.receipts|
    && (forall d | d in g.receiptFingerprints :: IsFingerprint(d))
    && ReviewFacts(g.attestation) && g.attestation.reviewedAt <= g.issuedAt
  }

  /** The gate answers this definition. */
  predicate Answers(g: Gate, d: Definition) {
    && g.task == d.task && g.planFingerprint == d.planFingerprint
    && g.acceptanceFingerprint == OfAcceptance(d.acceptance)
    && (set x | x in ResultIds(g)) == (set x | x in AcceptanceIds(d))
  }

  predicate NoLinks(g: Gate) {
    g.previousPhase == None && g.previousCommit == None && g.previousFingerprint == None
  }

  predicate Linked(g: Gate, previous: Gate) {
    && g.previousPhase == Some(previous.phase) && g.previousCommit == Some(previous.commit)
    && g.previousFingerprint == Some(OfGate(previous))
  }

  // ----- checks that read files -----

  /** _read_reopen; None for a missing journal, or the error of a damaged one. */
  datatype JournalRead = NoJournal | ReadJournal(journal: Journal) | BadJournal

  function ReadReopen(s: Store, path: Path): JournalRead {
    if path !in s.reopens then NoJournal
    else
      var j := s.reopens[path];
      if && j.schema == SCHEMA && j.archive.requirement == path.0 && j.archive.phase == path.1
         && j.fingerprint == OfArchive(j.archive)
         && !Blank(j.archive.reason) && !Blank(j.archive.reopenedBy) && !Blank(j.archive.task)
      then ReadJournal(j) else BadJournal
  }

  predicate NoPendingReopen(s: Store, path: Path) {
    match ReadReopen(s, path)
    case NoJournal => true
    case ReadJournal(j) => !j.pending
    case BadJournal => false
  }

  predicate HasReceipt(s: Store, requirement: string, id: string) {
    && IsIdentifier(id) && (requirement, id) in s.receipts
    && ReceiptFacts(s.receipts[(requirement, id)])
    && s.receipts[(requirement, id)].id == id && s.receipts[(requirement, id)].requirement == requirement
  }

  predicate HasActivation(s: Store, path: Path) {
    path in s.activations && s.activations[path].requirement == path.0 && s.activations[path].phase == path.1
  }

  function ExecutionKind(s: Suite): string {
    if s.attested.Some? && s.attested.value != "" then s.attested.value else s.kind
  }

  predicate IssuedBySuite(r: Receipt, s: Suite) {
    && (ExecutionKind(s) == "command" || ExecutionKind(s) == "github-actions")
    && r.issuer == (if ExecutionKind(s) == "command" then "workspace-command-runner" else "github-actions-api")
    && r.command == s.command && r.suiteFingerprint == OfSuite(s)
    && ((s.kind == "github-actions" || s.kind == "github-attestation") ==> r.url.Some? && r.url.value != "")
  }

  /** One receipt against the gate that cites it. */
  predicate ReceiptBinds(w: World, g: Gate, d: Definition, notBefore: Option<int>, r: Receipt, fingerprint: Digest) {
    && OfReceipt(r) == fingerprint && r.commit == g.commit
    && (notBefore.Some? ==> notBefore.value <= r.startedAt)
    && r.completedAt <= g.attestation.reviewedAt && r.completedAt <= g.issuedAt
    && exists s | s in d.suites ::
         s.id == r.suite && IssuedBySuite(r, s) && (g.phase >= 4 ==> w.authority(r, s, g.phase, g.commit))
  }

  function Cited(s: Store, g: Gate): seq<Receipt>
    requires forall i | 0 <= i < |g.receipts| :: HasReceipt(s, g.requirement, g.receipts[i])
  {
    seq(|g.receipts|, i requires 0 <= i < |g.receipts| && HasReceipt(s, g.requirement, g.receipts[i]) =>
          s.receipts[(g.requirement, g.receipts[i])])
  }

  /** _validate_receipt_bindings */
  predicate ReceiptBindings(w: World, s: Store, g: Gate, d: Definition, notBefore: Option<int>) {
    && Unique(g.receipts) && |g.receiptFingerprints| == |g.receipts|
    && (forall i | 0 <= i < |g.receipts| :: HasReceipt(s, g.requirement, g.receipts[i]))
    && var rs := Cited(s, g);
    && (forall i | 0 <= i < |rs| :: ReceiptBinds(w, g, d, notBefore, rs[i], g.receiptFingerprints[i]))
    && (set r | r in rs :: r.suite) == (set x | x in SuiteIds(d))
    && (forall result | result in g.results :: forall e | e in result.evidence :: e in g.receipts)
    && (set r | r in rs :: r.run) == (set x | x in g.attestation.runs)
    && (set r | r in rs :: r.session) == (set x | x in g.attestation.sessions)
    && (forall r | r in rs :: r.session != g.attestation.reviewer)
  }

  /** _require_frozen_definition: HEAD still holds the file the gate was issued
      against, unknown fields included. */
  predicate Frozen(c: Commits, head: string, g: Gate) {
    var path := (g.requirement, g.phase);
    && g.commit in c && path in c[g.commit].definitions
    && head in c && path in c[head].definitions
    && c[g.commit].definitions[path] == c[head].definitions[path]
    && Loadable(c, head, path)
  }

  /** What _validate_activation checks before it turns to the predecessor. */
  predicate ActivationFacts(now: int, a: Activation) {
    && a.schema == SCHEMA && IsRequirement(a.requirement)
    && a.phase >= 1 && a.predecessorPhase == a.phase - 1
    && IsSha(a.predecessorCommit) && IsFingerprint(a.predecessorFingerprint)
    && a.activatedAt <= now + CLOCK_SKEW && !Blank(a.session) && !Blank(a.activatedBy)
  }

  /** What it checks of the predecessor gate itself. */
  predicate ActivationBinds(w: World, a: Activation, predecessor: Gate) {
    && predecessor.issuedAt <= a.activatedAt
    && (var d := Load(w.commits, predecessor.commit, (a.requirement, a.predecessorPhase));
        d.Some? && d.value.next == Some(a.task))
    && a.predecessorCommit == predecessor.commit && a.predecessorFingerprint == OfGate(predecessor)
    && IsSha(w.head) && (w.head == predecessor.commit || IsAncestor(w.commits, predecessor.commit, w.head))
  }

  // ----- the recursion -----

  function Rank(phase: int): nat {
    if phase < 0 then 0 else 2 * phase
  }

  /** The recursion ends although a file may hold a gate of another phase: an
      activation is charged with the phase of the gate it will read. */
  function ActivationRank(s: Store, a: Activation): nat {
    if a.predecessorPhase == a.phase - 1 && (a.requirement, a.phase - 1) in s.gates
    then Rank(s.gates[(a.requirement, a.phase - 1)].phase) + 1 else 0
  }

  /** The definition a gate's own commit declares for its phase. */
  predicate Declared(c: Commits, g: Gate) {
    var ds := Definitions(c, g.commit, g.requirement);
    0 <= g.phase && ds.Some? && g.phase < |ds.value| && Answers(g, ds.value[g.phase])
  }

  function DeclaredFor(c: Commits, g: Gate): Definition
    requires Declared(c, g)
  {
    Definitions(c, g.commit, g.requirement).value[g.phase]
  }

  predicate ReceiptsBind(w: World, s: Store, g: Gate, notBefore: Option<int>) {
    Declared(w.commits, g) && ReceiptBindings(w, s, g, DeclaredFor(w.commits, g), notBefore)
  }

  predicate ForTask(c: Commits, g: Gate, a: Activation) {
    Declared(c, g) && a.task == DeclaredFor(c, g).task
  }

  /** The checks on a past gate that need no other gate. */
  predicate Standing(w: World, s: Store, g: Gate) {
    NoPendingReopen(s, (g.requirement, g.phase)) && PassFacts(w.now, g) && Frozen(w.commits, w.head, g) && Declared(w.commits, g)
  }

  /** The gate below, at its path and of its phase. */
  predicate HasPrevious(s: Store, g: Gate) {
    && (g.requirement, g.phase - 1) in s.gates
    && s.gates[(g.requirement, g.phase - 1)].requirement == g.requirement
    && s.gates[(g.requirement, g.phase - 1)].phase == g.phase - 1
  }

  function Previous(s: Store, g: Gate): Gate
    requires HasPrevious(s, g)
  {
    s.gates[(g.requirement, g.phase - 1)]
  }

  predicate Succeeds(c: Commits, g: Gate, previous: Gate) {
    Linked(g, previous) && IsAncestor(c, previous.commit, g.commit)
  }

  /** _validate_predecessor_chain */
  predicate ChainValid(w: World, s: Store, g: Gate)
    decreases Rank(g.phase)
  {
    hide Standing, ReceiptsBind, Succeeds, ForTask, NoLinks;
    && Standing(w, s, g)
    && g.phase >= 0
    && if g.phase == 0 then ReceiptsBind(w, s, g, None) && NoLinks(g)
       else
         && HasPrevious(s, g)
         && ChainValid(w, s, Previous(s, g))
         && Succeeds(w.commits, g, Previous(s, g))
         && HasActivation(s, (g.requirement, g.phase))
         && var a := s.activations[(g.requirement, g.phase)];
         && ActivationValid(w, s, a)
         && ForTask(w.commits, g, a)
         && ReceiptsBind(w, s, g, Some(a.activatedAt))
  }

  /** _validate_activation */
  predicate ActivationValid(w: World, s: Store, a: Activation)
    decreases ActivationRank(s, a)
  {
    hide ActivationBinds;
    && ActivationFacts(w.now, a)
    && (a.requirement, a.predecessorPhase) in s.gates
    && var predecessor := s.gates[(a.requirement, a.predecessorPhase)];
    && ChainValid(w, s, predecessor)
    && ActivationBinds(w, a, predecessor)
  }

  /** _require_phase_activation */
  predicate PhaseActivated(w: World, s: Store, path: Path, d: Definition, requireCurrent: bool) {
    && HasActivation(s, path)
    && ActivationValid(w, s, s.activations[path])
    && s.activations[path].task == d.task
    && (requireCurrent ==> path.0 in s.meta && s.meta[path.0].task == Some(d.task))
  }

  /** _require_exact_head */
  predicate ExactHead(w: World, s: Store, g: Gate) {
    && NoPendingReopen(s, (g.requirement, g.phase)) && w.inPlace
    && IsSha(w.head) && w.clean && g.commit == w.head
  }

  /** _validate: the gate about to be written, or read back as current. */
  predicate GateValid(w: World, s: Store, g: Gate) {
    && PassFacts(w.now, g) && ExactHead(w, s, g) && Declared(w.commits, g)
    && if g.phase == 0 then NoLinks(g) && ReceiptsBind(w, s, g, None)
       else
         && HasPrevious(s, g)
         && ChainValid(w, s, Previous(s, g))
         && Succeeds(w.commits, g, Previous(s, g))
         && PhaseActivated(w, s, (g.requirement, g.phase), DeclaredFor(w.commits, g), true)
         && ReceiptsBind(w, s, g, Some(s.activations[(g.requirement, g.phase)].activatedAt))
  }
}
